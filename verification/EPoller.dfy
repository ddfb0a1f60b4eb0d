/** The epoll poller: a three-valued index in every channel that must track what the
    kernel has registered.  The kernel is a map from fds to event masks; every
    epoll_ctl call is logged, and replaying the log shows that none was refused. */
module EPollers {
  import opened Options
  import opened Channels

  const NEW: int := -1
  const ADDED: int := 1
  const DELETED: int := 2

  datatype Op = Add(fd: int, events: int) | Mod(fd: int, events: int) | Del(fd: int)

  type Kernel = map<int, int>

  /** epoll_ctl: ADD is refused for a registered fd, MOD and DEL for an unregistered one. */
  function Ctl(kernel: Kernel, op: Op): Option<Kernel> {
    match op
    case Add(fd, events) => if fd in kernel then None else Some(kernel[fd := events])
    case Mod(fd, events) => if fd in kernel then Some(kernel[fd := events]) else None
    case Del(fd) => if fd in kernel then Some(kernel - {fd}) else None
  }

  function CtlAll(kernel: Kernel, ops: seq<Op>): Option<Kernel>
  {
    if ops == [] then Some(kernel)
    else
      match CtlAll(kernel, ops[..|ops| - 1])
      case None => None
      case Some(k) => Ctl(k, ops[|ops| - 1])
  }

  lemma CtlOneMore(kernel: Kernel, ops: seq<Op>, op: Op)
    requires CtlAll(kernel, ops).Some?
    ensures CtlAll(kernel, ops + [op]) == Ctl(CtlAll(kernel, ops).value, op)
  {
    assert (ops + [op])[..|ops + [op]| - 1] == ops;
  }

  class EPoller {
    var channels: map<int, Channel>
    ghost var kernel: Kernel
    ghost var log: seq<Op>

    /** Index and kernel agree for a channel whose events are as last updated. */
    ghost predicate Agrees(fd: int)
      requires fd in channels
      reads `channels, `kernel, channels[fd]
    {
      var c := channels[fd];
      && c.fd == fd
      && (c.index == ADDED || c.index == DELETED)
      && (c.index == ADDED <==> fd in kernel)
      && (c.index == ADDED ==> kernel[fd] == c.events)
      && (c.index == DELETED ==> c.events == 0)
    }

    ghost predicate Valid()
      reads this, channels.Values
    {
      && (forall fd :: fd in channels ==> Agrees(fd))
      && kernel.Keys <= channels.Keys
      && CtlAll(map[], log) == Some(kernel)
    }

    constructor ()
      ensures Valid() && channels == map[] && log == []
    {
      channels, kernel, log := map[], map[], [];
    }

    method Update(op: Op)
      requires CtlAll(map[], log) == Some(kernel) && Ctl(kernel, op).Some?
      modifies `kernel, `log
      ensures log == old(log) + [op] && kernel == Ctl(old(kernel), op).value
      ensures CtlAll(map[], log) == Some(kernel)
    {
      CtlOneMore(map[], log, op);
      kernel := Ctl(kernel, op).value;
      log := log + [op];
    }

    /** The channel changes its events and calls update().  A channel the poller does
        not know has index NEW; one it knows is the one in the map. */
    method UpdateChannel(channel: Channel, events: int)
      requires Valid()
      requires if channel.fd in channels then channels[channel.fd] == channel else channel.index == NEW
      modifies this, channel
      ensures Valid() && channel.events == events && channels == old(channels)[channel.fd := channel]
      ensures log == old(log) + [
        if old(channel.index) != ADDED then Add(channel.fd, events)
        else if events == 0 then Del(channel.fd) else Mod(channel.fd, events)]
      ensures channel.index == if old(channel.index) == ADDED && events == 0 then DELETED else ADDED
      ensures kernel == if channel.index == ADDED then old(kernel)[channel.fd := events] else old(kernel) - {channel.fd}
    {
      assert channel.fd in channels ==> Agrees(channel.fd);
      if channel.index == NEW || channel.index == DELETED {
        Register(channel, events);
      } else {
        Change(channel, events);
      }
    }

    /** The branch for a channel that is new or was taken out of the kernel. */
    method Register(channel: Channel, events: int)
      requires Valid() && channel.fd !in kernel
      requires if channel.index == NEW then channel.fd !in channels
        else channel.fd in channels && channels[channel.fd] == channel
      modifies this, channel
      ensures Valid() && channel.events == events && channels == old(channels)[channel.fd := channel]
      ensures log == old(log) + [Add(channel.fd, events)] && channel.index == ADDED
      ensures kernel == old(kernel)[channel.fd := events]
    {
      assert forall f :: f in channels && f != channel.fd ==> Agrees(f) && channels[f] != channel;
      channel.events := events;
      if channel.index == NEW {
        channels := channels[channel.fd := channel];
      }
      assert channels == old(channels)[channel.fd := channel];
      channel.index := ADDED;
      Update(Add(channel.fd, events));
      assert Agrees(channel.fd) && forall f :: f in channels && f != channel.fd ==> Agrees(f);
    }

    /** The branch for a registered channel. */
    method Change(channel: Channel, events: int)
      requires Valid() && channel.fd in channels && channels[channel.fd] == channel && channel.index == ADDED
      modifies this, channel
      ensures Valid() && channel.events == events && channels == old(channels)
      ensures log == old(log) + [if events == 0 then Del(channel.fd) else Mod(channel.fd, events)]
      ensures channel.index == if events == 0 then DELETED else ADDED
      ensures kernel == if events == 0 then old(kernel) - {channel.fd} else old(kernel)[channel.fd := events]
    {
      assert forall f :: f in channels && f != channel.fd ==> Agrees(f) && channels[f] != channel;
      assert Agrees(channel.fd);
      channel.events := events;
      if events == 0 {
        Update(Del(channel.fd));
        channel.index := DELETED;
      } else {
        Update(Mod(channel.fd, events));
      }
      assert forall f :: f in channels && f != channel.fd ==> Agrees(f);
    }

    method RemoveChannel(channel: Channel)
      requires Valid() && channel.fd in channels && channels[channel.fd] == channel && channel.events == 0
      modifies this, channel
      ensures Valid() && channel.index == NEW && channels == old(channels) - {channel.fd}
      ensures log == old(log) + (if old(channel.index) == ADDED then [Del(channel.fd)] else [])
      ensures kernel == old(kernel) - {channel.fd} && channel.events == 0
    {
      var fd := channel.fd;
      assert Agrees(fd);
      assert forall f :: f in channels && f != fd ==> Agrees(f) && channels[f] != channel;
      channels := channels - {fd};
      if channel.index == ADDED {
        Update(Del(fd));
      }
      channel.index := NEW;
      assert forall f :: f in channels ==> Agrees(f);
    }
  }

  /** A call on a poller's channel `i` of some list. */
  datatype Call = UpdateTo(i: nat, events: int) | RemoveAt(i: nat)

  /** The map holds this channel, and not another one with its fd. */
  predicate Holds(poller: EPoller, c: Channel)
    reads poller, c
  {
    c.fd in poller.channels && poller.channels[c.fd] == c
  }

  /** What the assertions of `updateChannel` say of the channel. */
  predicate MayUpdate(poller: EPoller, c: Channel)
    reads poller, c
  {
    if c.index == NEW then c.fd !in poller.channels else Holds(poller, c)
  }

  /** Where a channel stands: not in the map, or in it with the events of its last update
      and registered in the kernel or not. */
  datatype Standing = Out | In(events: int, registered: bool)

  /** The map holds some channel with the fd of channel `i`. */
  predicate Held(fds: seq<int>, ss: seq<Standing>, i: nat)
    requires |ss| == |fds| && i < |fds|
  {
    exists j :: 0 <= j < |fds| && ss[j].In? && fds[j] == fds[i]
  }

  /** The assertions of an update of channel `i` hold. */
  predicate Takes(fds: seq<int>, ss: seq<Standing>, i: nat)
    requires |ss| == |fds| && i < |fds|
  {
    ss[i].In? || !Held(fds, ss, i)
  }

  /** Only an update without events of a registered channel takes it out of the kernel. */
  function OneCall(fds: seq<int>, ss: seq<Standing>, call: Call): (r: seq<Standing>)
    requires |ss| == |fds|
    ensures |r| == |fds|
  {
    if call.i >= |fds| then ss
    else
      var s := ss[call.i];
      match call
      case UpdateTo(i, events) =>
        if !Takes(fds, ss, i) then ss else ss[i := In(events, events != 0 || s.Out? || !s.registered)]
      case RemoveAt(i) => if s.In? && s.events == 0 then ss[i := Out] else ss
  }

  /** What the calls make of channels with these fds that no poller had seen. */
  function After(fds: seq<int>, calls: seq<Call>): (r: seq<Standing>)
    ensures |r| == |fds|
  {
    if calls == [] then seq(|fds|, _ => Out)
    else OneCall(fds, After(fds, calls[..|calls| - 1]), calls[|calls| - 1])
  }

  /** Call `k` updates channel `i`, and its assertions hold. */
  predicate UpdatedBy(fds: seq<int>, calls: seq<Call>, k: int, i: nat)
    requires i < |fds|
  {
    0 <= k < |calls| && calls[k].UpdateTo? && calls[k].i == i && Takes(fds, After(fds, calls[..k]), i)
  }

  /** Call `k` removes channel `i`, and its assertions hold. */
  predicate RemovedBy(fds: seq<int>, calls: seq<Call>, k: int, i: nat)
    requires i < |fds|
  {
    0 <= k < |calls| && calls[k] == RemoveAt(i) && var s := After(fds, calls[..k])[i]; s.In? && s.events == 0
  }

  /** Call `k` is the last that did something to channel `i`. */
  predicate LastBy(fds: seq<int>, calls: seq<Call>, k: int, i: nat)
    requires i < |fds|
  {
    && (UpdatedBy(fds, calls, k, i) || RemovedBy(fds, calls, k, i))
    && forall j :: k < j < |calls| ==> !UpdatedBy(fds, calls, j, i) && !RemovedBy(fds, calls, j, i)
  }

  /** Call `k` left the channel in, with these events, unregistered exactly when it was
      registered before and the call took its events away. */
  predicate DecidedBy(fds: seq<int>, calls: seq<Call>, k: int, i: nat, events: int, registered: bool)
    requires i < |fds|
  {
    && LastBy(fds, calls, k, i) && UpdatedBy(fds, calls, k, i) && calls[k].events == events
    && var before := After(fds, calls[..k])[i];
      (!registered <==> events == 0 && before.In? && before.registered)
  }

  lemma EarlierCalls(fds: seq<int>, calls: seq<Call>, i: nat)
    requires i < |fds| && calls != []
    ensures var front := calls[..|calls| - 1]; forall k :: 0 <= k < |front| ==>
      && calls[..k] == front[..k]
      && (UpdatedBy(fds, calls, k, i) <==> UpdatedBy(fds, front, k, i))
      && (RemovedBy(fds, calls, k, i) <==> RemovedBy(fds, front, k, i))
  {
    var front := calls[..|calls| - 1];
    forall k | 0 <= k < |front| ensures calls[..k] == front[..k] {}
  }

  lemma NothingDone(fds: seq<int>, calls: seq<Call>, i: nat)
    requires i < |fds| && calls != []
    requires !UpdatedBy(fds, calls, |calls| - 1, i) && !RemovedBy(fds, calls, |calls| - 1, i)
    ensures var front := calls[..|calls| - 1];
      && After(fds, calls)[i] == After(fds, front)[i]
      && forall k :: LastBy(fds, calls, k, i) <==> LastBy(fds, front, k, i)
  {
    EarlierCalls(fds, calls, i);
  }

  /** How a channel stands was decided by the last call that did something to it: a removal
      if it is out (or nothing was done), an update if it is in. */
  lemma {:induction false} StandingExactly(fds: seq<int>, calls: seq<Call>, i: nat)
    requires i < |fds|
    ensures var s := After(fds, calls)[i];
      && (s.Out? ==> forall k :: LastBy(fds, calls, k, i) ==> RemovedBy(fds, calls, k, i))
      && (s.In? ==> exists k :: DecidedBy(fds, calls, k, i, s.events, s.registered))
  {
    if calls == [] {
    } else {
      var n := |calls| - 1;
      var front := calls[..n];
      var s := After(fds, calls)[i];
      if UpdatedBy(fds, calls, n, i) {
        assert DecidedBy(fds, calls, n, i, s.events, s.registered);
      } else if RemovedBy(fds, calls, n, i) {
        assert forall k :: LastBy(fds, calls, k, i) ==> k == n;
      } else {
        StandingExactly(fds, front, i);
        NothingDone(fds, calls, i);
        EarlierCalls(fds, calls, i);
        if s.In? {
          var k :| DecidedBy(fds, front, k, i, s.events, s.registered);
          assert DecidedBy(fds, calls, k, i, s.events, s.registered);
        }
      }
    }
  }

  ghost predicate Stands(poller: EPoller, c: Channel, s: Standing)
    reads poller, c
  {
    match s
    case Out => c.index == NEW && !Holds(poller, c)
    case In(events, registered) =>
      && Holds(poller, c) && c.events == events
      && c.index == (if registered then ADDED else DELETED)
      && (registered <==> c.fd in poller.kernel) && (registered ==> poller.kernel[c.fd] == events)
  }

  ghost predicate Tracked(poller: EPoller, cs: seq<Channel>, ss: seq<Standing>)
    reads poller, cs
  {
    && |ss| == |cs|
    && (forall i :: 0 <= i < |cs| ==> Stands(poller, cs[i], ss[i]))
    && (forall fd :: fd in poller.channels ==> poller.channels[fd] in cs)
  }

  predicate Listed(cs: seq<Channel>, fds: seq<int>) {
    && |fds| == |cs| && (forall i :: 0 <= i < |cs| ==> cs[i].fd == fds[i])
    && (forall i, j :: 0 <= i < j < |cs| ==> cs[i] != cs[j])
  }

  /** The map holds a channel with this fd exactly when some listed one is in. */
  lemma HeldIsInMap(poller: EPoller, cs: seq<Channel>, fds: seq<int>, ss: seq<Standing>, i: nat)
    requires Listed(cs, fds) && Tracked(poller, cs, ss) && i < |cs|
    requires forall fd :: fd in poller.channels ==> poller.channels[fd].fd == fd
    ensures Held(fds, ss, i) <==> fds[i] in poller.channels
    ensures MayUpdate(poller, cs[i]) <==> Takes(fds, ss, i)
  {
    if j :| 0 <= j < |fds| && ss[j].In? && fds[j] == fds[i] {
      assert Stands(poller, cs[j], ss[j]);
    }
    if fds[i] in poller.channels {
      var j :| 0 <= j < |cs| && cs[j] == poller.channels[fds[i]];
      assert Stands(poller, cs[j], ss[j]) && ss[j].In?;
    }
    assert Stands(poller, cs[i], ss[i]);
  }

  method TryUpdate(poller: EPoller, cs: seq<Channel>, ghost fds: seq<int>, ghost ss: seq<Standing>, i: nat, events: int)
    requires poller.Valid() && Listed(cs, fds) && Tracked(poller, cs, ss) && i < |cs|
    modifies poller, cs
    ensures poller.Valid() && Tracked(poller, cs, OneCall(fds, ss, UpdateTo(i, events)))
  {
    assert forall fd :: fd in poller.channels ==> poller.Agrees(fd);
    HeldIsInMap(poller, cs, fds, ss, i);
    assert Stands(poller, cs[i], ss[i]);
    if MayUpdate(poller, cs[i]) {
      UpdateListed(poller, cs, fds, ss, i, events);
    }
  }

  method UpdateListed(poller: EPoller, cs: seq<Channel>, ghost fds: seq<int>, ghost ss: seq<Standing>, i: nat, events: int)
    requires poller.Valid() && Listed(cs, fds) && Tracked(poller, cs, ss) && i < |cs| && MayUpdate(poller, cs[i])
    modifies poller, cs
    ensures poller.Valid()
    ensures Tracked(poller, cs, ss[i := In(events, events != 0 || ss[i].Out? || !ss[i].registered)])
  {
    assert Stands(poller, cs[i], ss[i]);
    forall j | 0 <= j < |cs| && j != i
      ensures cs[j] != cs[i] && (Holds(poller, cs[j]) ==> cs[j].fd != cs[i].fd)
    {
      assert Stands(poller, cs[j], ss[j]);
    }
    poller.UpdateChannel(cs[i], events);
    assert Stands(poller, cs[i], In(events, events != 0 || ss[i].Out? || !ss[i].registered));
    forall j | 0 <= j < |cs| && j != i ensures Stands(poller, cs[j], ss[j]) {
      assert cs[j] != cs[i];
    }
  }

  method TryRemove(poller: EPoller, cs: seq<Channel>, ghost fds: seq<int>, ghost ss: seq<Standing>, i: nat)
    requires poller.Valid() && Listed(cs, fds) && Tracked(poller, cs, ss) && i < |cs|
    modifies poller, cs
    ensures poller.Valid() && Tracked(poller, cs, OneCall(fds, ss, RemoveAt(i)))
  {
    assert Stands(poller, cs[i], ss[i]);
    if Holds(poller, cs[i]) && cs[i].events == 0 {
      poller.RemoveChannel(cs[i]);
      forall j | 0 <= j < |cs| && j != i ensures Stands(poller, cs[j], ss[j]) {
        assert cs[j] != cs[i];
      }
    }
  }

  /** One call, unless its assertions fail. */
  method TryCall(poller: EPoller, cs: seq<Channel>, ghost fds: seq<int>, ghost ss: seq<Standing>, call: Call)
    requires poller.Valid() && Listed(cs, fds) && Tracked(poller, cs, ss)
    modifies poller, cs
    ensures poller.Valid() && Tracked(poller, cs, OneCall(fds, ss, call))
  {
    if call.i < |cs| {
      match call {
        case UpdateTo(i, events) => TryUpdate(poller, cs, fds, ss, i, events);
        case RemoveAt(i) => TryRemove(poller, cs, fds, ss, i);
      }
    }
  }

  lemma AfterOneMore(fds: seq<int>, calls: seq<Call>, k: nat)
    requires k < |calls|
    ensures After(fds, calls[..k + 1]) == OneCall(fds, After(fds, calls[..k]), calls[k])
  {
    assert calls[..k + 1][..k] == calls[..k];
  }

  /** The next update's assertions, and whom the kernel's fds belong to. */
  lemma TrackedIsKnown(poller: EPoller, cs: seq<Channel>, fds: seq<int>, ss: seq<Standing>)
    requires poller.Valid() && Listed(cs, fds) && Tracked(poller, cs, ss)
    ensures forall i :: 0 <= i < |cs| ==> (MayUpdate(poller, cs[i]) <==> Takes(fds, ss, i))
    ensures forall fd :: fd in poller.kernel ==> exists i :: 0 <= i < |cs| && cs[i].fd == fd && cs[i].index == ADDED
  {
    assert forall fd :: fd in poller.channels ==> poller.Agrees(fd);
    forall i | 0 <= i < |cs| ensures MayUpdate(poller, cs[i]) <==> Takes(fds, ss, i) {
      HeldIsInMap(poller, cs, fds, ss, i);
    }
    forall fd | fd in poller.kernel
      ensures exists i :: 0 <= i < |cs| && cs[i].fd == fd && cs[i].index == ADDED
    {
      assert fd in poller.channels && poller.Agrees(fd);
      var i :| 0 <= i < |cs| && cs[i] == poller.channels[fd];
    }
  }

  /** Over every sequence of updates and removals, those left out whose assertions fail,
      and channels that use one fd after the other included: the kernel refuses nothing,
      each channel stands as its calls make it, index, kernel and mask included, and
      nothing else is registered. */
  method RunCalls(poller: EPoller, cs: seq<Channel>, calls: seq<Call>, ghost fds: seq<int>)
    requires poller.Valid() && poller.channels == map[]
    requires |fds| == |cs| && forall i :: 0 <= i < |cs| ==> cs[i].fd == fds[i] && cs[i].index == NEW
    requires forall i, j :: 0 <= i < j < |cs| ==> cs[i] != cs[j]
    modifies poller, cs
    ensures poller.Valid() && CtlAll(map[], poller.log) == Some(poller.kernel)
    ensures var ss := After(fds, calls);
      forall i :: 0 <= i < |cs| ==> Stands(poller, cs[i], ss[i]) && (MayUpdate(poller, cs[i]) <==> Takes(fds, ss, i))
    ensures forall fd :: fd in poller.kernel ==> exists i :: 0 <= i < |cs| && cs[i].fd == fd && cs[i].index == ADDED
  {
    ghost var ss := seq(|cs|, _ => Out);
    var k := 0;
    while k < |calls|
      invariant k <= |calls| && poller.Valid() && Tracked(poller, cs, ss) && ss == After(fds, calls[..k])
    {
      TryCall(poller, cs, fds, ss, calls[k]);
      AfterOneMore(fds, calls, k);
      ss := OneCall(fds, ss, calls[k]);
      k := k + 1;
    }
    assert calls[..k] == calls;
    TrackedIsKnown(poller, cs, fds, ss);
  }

  /** A connector's channel hands its fd over to the connection's own channel. */
  method HandOver(poller: EPoller, connector: Channel, connection: Channel)
    requires poller.Valid() && connector.fd == connection.fd && connector != connection
    requires connector.fd !in poller.channels && connector.index == connection.index == NEW
    modifies poller, connector, connection
    ensures poller.Valid() && connector.index == NEW && Holds(poller, connection) && connection.index == ADDED
    ensures poller.log == old(poller.log) + [Add(connection.fd, 4), Del(connection.fd), Add(connection.fd, 3)]
  {
    poller.UpdateChannel(connector, 4);    // enableWriting
    poller.UpdateChannel(connector, 0);    // disableAll
    poller.RemoveChannel(connector);
    poller.UpdateChannel(connection, 3);   // enableReading
  }

  /** Connection teardown disables its channel twice, in handleClose and again in
      connectDestroyed, before it is removed.  The second disable registers the fd
      again, with an empty mask, and the removal takes it out. */
  method Teardown(poller: EPoller, channel: Channel, events: int)
    requires poller.Valid() && events != 0 && channel.fd !in poller.channels && channel.index == NEW
    modifies poller, channel
    ensures poller.Valid() && channel.index == NEW && channel.fd !in poller.kernel
    ensures poller.kernel == old(poller.kernel) && poller.channels == old(poller.channels)
    ensures poller.log == old(poller.log) +
      [Add(channel.fd, events), Del(channel.fd), Add(channel.fd, 0), Del(channel.fd)]
  {
    assert channel.fd !in poller.kernel;
    poller.UpdateChannel(channel, events);
    poller.UpdateChannel(channel, 0);
    poller.UpdateChannel(channel, 0);
    poller.RemoveChannel(channel);
  }
}
