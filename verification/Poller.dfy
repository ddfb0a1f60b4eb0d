/** The poll(2) poller: an array of pollfds with swap-with-last removal, a map from
    fds to channels, and in every channel the index of its slot. */
module Pollers {
  import opened Options
  import opened Channels

  datatype PollFd = PollFd(fd: int, events: int, revents: int)

  /** A slot names fd `n` as `n` or, when the kernel must ignore it, as `-n - 1`. */
  function Owner(fd: int): (n: int)
    ensures n >= 0
  {
    if fd < 0 then -fd - 1 else fd
  }

  /** Slots and fds are in bijection: `where` is the inverse of reading a slot's owner. */
  predicate Indexed(slots: seq<PollFd>, where: map<int, int>) {
    && (forall fd :: fd in where ==> 0 <= where[fd] < |slots| && Owner(slots[where[fd]].fd) == fd)
    && (forall i :: 0 <= i < |slots| ==> Owner(slots[i].fd) in where && where[Owner(slots[i].fd)] == i)
  }

  /** A bijection: as many slots as fds. */
  lemma {:induction false} SameCount(slots: seq<PollFd>, where: map<int, int>)
    requires Indexed(slots, where)
    ensures |slots| == |where|
  {
    if slots == [] {
      assert forall fd :: fd !in where;
      assert where == map[];
    } else {
      var n := |slots| - 1;
      var fd := Owner(slots[n].fd);
      SameCount(slots[..n], where - {fd});
      assert where.Keys == (where - {fd}).Keys + {fd};
    }
  }

  /** A slot is negated exactly when its channel was ever updated without events since
      it was added, and carries the events of the last update. */
  predicate Faithful(slots: seq<PollFd>, muted: set<int>, wanted: map<int, int>) {
    forall i :: 0 <= i < |slots| ==>
      var fd := Owner(slots[i].fd);
      (slots[i].fd < 0 <==> fd in muted) && fd in wanted && wanted[fd] == slots[i].events
  }

  predicate Good(slots: seq<PollFd>, where: map<int, int>, muted: set<int>, wanted: map<int, int>) {
    Indexed(slots, where) && Faithful(slots, muted, wanted) && where.Keys == wanted.Keys
  }

  lemma AddKeepsGood(slots: seq<PollFd>, where: map<int, int>, muted: set<int>, wanted: map<int, int>, fd: int, events: int)
    requires Good(slots, where, muted, wanted) && fd >= 0 && fd !in where
    ensures Good(slots + [PollFd(fd, events, 0)], where[fd := |slots|], muted - {fd}, wanted[fd := events])
  {
  }

  function Slot(fd: int, events: int, muted: set<int>): PollFd {
    PollFd(if fd in muted then -fd - 1 else fd, events, 0)
  }

  function Mute(muted: set<int>, fd: int, events: int): set<int> {
    if events == 0 then muted + {fd} else muted
  }

  lemma ChangeKeepsGood(slots: seq<PollFd>, where: map<int, int>, muted: set<int>, wanted: map<int, int>, fd: int, events: int)
    requires Good(slots, where, muted, wanted) && fd in where && fd >= 0
    ensures Good(slots[where[fd] := Slot(fd, events, Mute(muted, fd, events))], where, Mute(muted, fd, events), wanted[fd := events])
  {
  }

  /** The slot of a channel in the map. */
  lemma SlotOfChannel(slots: seq<PollFd>, where: map<int, int>, muted: set<int>, wanted: map<int, int>, fd: int)
    requires Good(slots, where, muted, wanted) && fd in where && fd >= 0
    ensures 0 <= where[fd] < |slots| && slots[where[fd]].events == wanted[fd]
    ensures slots[where[fd]].fd == if fd in muted then -fd - 1 else fd
  {
  }

  function SwapRemove(slots: seq<PollFd>, i: nat): seq<PollFd>
    requires i < |slots|
  {
    if i == |slots| - 1 then slots[..i] else slots[i := slots[|slots| - 1]][..|slots| - 1]
  }

  function Reindex(slots: seq<PollFd>, where: map<int, int>, fd: int): map<int, int>
    requires Indexed(slots, where) && fd in where
  {
    var last := Owner(slots[|slots| - 1].fd);
    (if last == fd then where else where[last := where[fd]]) - {fd}
  }

  /** Removal keeps the bijection and loses no other slot. */
  lemma RemoveKeepsGood(slots: seq<PollFd>, where: map<int, int>, muted: set<int>, wanted: map<int, int>, fd: int)
    requires Good(slots, where, muted, wanted) && fd in where
    ensures Good(SwapRemove(slots, where[fd]), Reindex(slots, where, fd), muted - {fd}, wanted - {fd})
    ensures forall i :: 0 <= i < |slots| && i != where[fd] ==> slots[i] in SwapRemove(slots, where[fd])
  {
    var gap, last, r := where[fd], |slots| - 1, SwapRemove(slots, where[fd]);
    forall i | 0 <= i < |slots| && i != gap ensures slots[i] in r {
      assert slots[i] == r[if i == last then gap else i];
    }
  }

  /** The fds of the slots with events, in slot order, from slot `i` on. */
  function ReadyFrom(slots: seq<PollFd>, i: nat): seq<int>
    requires i <= |slots|
    decreases |slots| - i
  {
    if i == |slots| then []
    else (if slots[i].revents > 0 then [slots[i].fd] else []) + ReadyFrom(slots, i + 1)
  }

  lemma ReadyNext(slots: seq<PollFd>, i: nat, seen: seq<int>)
    requires i < |slots| && slots[i].revents > 0
    ensures (seen + [slots[i].fd]) + ReadyFrom(slots, i + 1) == seen + ReadyFrom(slots, i)
    ensures |ReadyFrom(slots, i)| == 1 + |ReadyFrom(slots, i + 1)|
  {
  }

  lemma ReadySkip(slots: seq<PollFd>, i: nat)
    requires i < |slots| && slots[i].revents <= 0
    ensures ReadyFrom(slots, i) == ReadyFrom(slots, i + 1)
  {
  }

  predicate ReadyAt(slots: seq<PollFd>, i: int, fd: int) {
    0 <= i < |slots| && slots[i].fd == fd && slots[i].revents > 0
  }

  /** Every ready slot is reported, and nothing else. */
  lemma {:induction false} ReadyMembers(slots: seq<PollFd>, i: nat, fd: int)
    requires i <= |slots|
    ensures fd in ReadyFrom(slots, i) <==> exists k :: i <= k && ReadyAt(slots, k, fd)
    decreases |slots| - i
  {
    if i == |slots| {
    } else {
      ReadyMembers(slots, i + 1, fd);
      var one := if slots[i].revents > 0 then [slots[i].fd] else [];
      InEither(one, ReadyFrom(slots, i + 1), fd);
      assert fd in one <==> ReadyAt(slots, i, fd);
      if k :| i <= k && ReadyAt(slots, k, fd) {
        assert k == i || i + 1 <= k;
      }
    }
  }

  lemma InEither(a: seq<int>, b: seq<int>, x: int)
    ensures x in a + b <==> x in a || x in b
  {
  }

  /** No channel is reported twice. */
  lemma {:induction false} ReadyDistinct(slots: seq<PollFd>, i: nat)
    requires i <= |slots| && forall k, l :: 0 <= k < l < |slots| ==> slots[k].fd != slots[l].fd
    ensures forall k, l :: 0 <= k < l < |ReadyFrom(slots, i)| ==> ReadyFrom(slots, i)[k] != ReadyFrom(slots, i)[l]
    decreases |slots| - i
  {
    if i == |slots| {
    } else {
      ReadyDistinct(slots, i + 1);
      ReadyMembers(slots, i + 1, slots[i].fd);
      assert forall k :: ReadyAt(slots, k, slots[i].fd) ==> k == i;
    }
  }

  /** Once as many ready slots were seen as there are, the rest have no events. */
  lemma {:induction false} NoneLeft(slots: seq<PollFd>, i: nat)
    requires i <= |slots| && ReadyFrom(slots, i) == []
    ensures forall k :: i <= k < |slots| ==> slots[k].revents <= 0
    decreases |slots| - i
  {
    if i == |slots| {
    } else {
      NoneLeft(slots, i + 1);
    }
  }

  /** The channels of these fds, in this order. */
  ghost predicate Reported(active: seq<Channel>, fds: seq<int>, channels: map<int, Channel>) {
    |active| == |fds| && forall k :: 0 <= k < |fds| ==> fds[k] in channels && channels[fds[k]] == active[k]
  }

  predicate NoRepeats(active: seq<Channel>) {
    forall k, l :: 0 <= k < l < |active| ==> active[k] != active[l]
  }

  lemma ReportOneMore(active: seq<Channel>, fds: seq<int>, channels: map<int, Channel>, fd: int)
    requires Reported(active, fds, channels) && fd in channels
    ensures Reported(active + [channels[fd]], fds + [fd], channels)
  {
  }

  class Poller {
    var pollfds: seq<PollFd>
    var channels: map<int, Channel>
    // fds updated at least once without any event since they were added
    ghost var muted: set<int>
    // the index and the events of every channel in the map
    ghost var where: map<int, int>
    ghost var wanted: map<int, int>

    ghost predicate Tied()
      reads `channels, `where, `wanted, channels.Values`index, channels.Values`events
    {
      channels.Keys == where.Keys == wanted.Keys &&
      forall fd :: fd in channels ==>
        channels[fd].fd == fd && channels[fd].index == where[fd] && channels[fd].events == wanted[fd]
    }

    ghost predicate Valid()
      reads this, channels.Values`index, channels.Values`events
    {
      Tied() && Good(pollfds, where, muted, wanted)
    }

    constructor ()
      ensures Valid() && pollfds == [] && channels == map[]
    {
      pollfds, channels := [], map[];
      muted, where, wanted := {}, map[], map[];
    }

    /** The channel changes its events and calls update(). */
    method UpdateChannel(channel: Channel, events: int)
      requires Valid() && channel.fd >= 0
      requires if channel.index < 0 then channel.fd !in channels
               else channel.fd in channels && channels[channel.fd] == channel
      modifies this, channel`index, channel`events
      ensures Valid() && channel.events == events && channels == old(channels)[channel.fd := channel]
      ensures if old(channel.index) < 0 then
          pollfds == old(pollfds) + [PollFd(channel.fd, events, 0)] && muted == old(muted) - {channel.fd}
        else
          && 0 <= channel.index == old(channel.index) < |old(pollfds)|
          && muted == Mute(old(muted), channel.fd, events)
          && pollfds == old(pollfds)[channel.index := Slot(channel.fd, events, muted)]
    {
      if channel.index < 0 {
        AddSlot(channel, events);
      } else {
        ChangeSlot(channel, events);
      }
    }

    method AddSlot(channel: Channel, events: int)
      requires Valid() && channel.fd >= 0 && channel.fd !in channels
      modifies this, channel`index, channel`events
      ensures Valid() && channel.events == events && channels == old(channels)[channel.fd := channel]
      ensures pollfds == old(pollfds) + [PollFd(channel.fd, events, 0)] && muted == old(muted) - {channel.fd}
    {
      var fd := channel.fd;
      ghost var s, w, m, x := pollfds + [PollFd(fd, events, 0)], where[fd := |pollfds|], muted - {fd}, wanted[fd := events];
      assert Good(s, w, m, x) by { AddKeepsGood(pollfds, where, muted, wanted, fd, events); }
      pollfds := pollfds + [PollFd(fd, events, 0)];
      muted := m;
      Enter(channel, events, |pollfds| - 1);
      assert where == w && wanted == x;
    }

    /** The channel gets its index and enters the map. */
    method Enter(channel: Channel, events: int, idx: int)
      requires Tied() && channel.fd !in channels
      modifies `channels, `where, `wanted, channel`index, channel`events
      ensures Tied() && channel.events == events && channel.index == idx
      ensures channels == old(channels)[channel.fd := channel]
      ensures where == old(where)[channel.fd := idx] && wanted == old(wanted)[channel.fd := events]
    {
      channel.events := events;
      channel.index := idx;
      channels := channels[channel.fd := channel];
      where, wanted := where[channel.fd := idx], wanted[channel.fd := events];
    }

    /** A slot that was ever negated stays negated, whatever the new events are. */
    method ChangeSlot(channel: Channel, events: int)
      requires Valid() && channel.fd >= 0 && channel.fd in channels && channels[channel.fd] == channel
      modifies this, channel`events
      ensures Valid() && channel.events == events && channels == old(channels)
      ensures 0 <= channel.index < |old(pollfds)|
      ensures muted == Mute(old(muted), channel.fd, events)
      ensures pollfds == old(pollfds)[channel.index := Slot(channel.fd, events, muted)]
    {
      var fd, idx := channel.fd, channel.index;
      SlotOfChannel(pollfds, where, muted, wanted, fd);
      ghost var s, m, x := pollfds[idx := Slot(fd, events, Mute(muted, fd, events))], Mute(muted, fd, events), wanted[fd := events];
      assert Good(s, where, m, x) by { ChangeKeepsGood(pollfds, where, muted, wanted, fd, events); }
      var pfd := pollfds[idx];
      assert pfd.fd == fd || pfd.fd == -fd - 1;
      pfd := pfd.(events := events, revents := 0);
      if events == 0 {
        pfd := pfd.(fd := -fd - 1);
      }
      assert pfd == Slot(fd, events, m);
      pollfds := pollfds[idx := pfd];
      muted := m;
      SetEvents(channel, events);
    }

    method SetEvents(channel: Channel, events: int)
      requires Tied() && channel.fd in channels && channels[channel.fd] == channel
      modifies `wanted, channel`events
      ensures Tied() && channel.events == events && wanted == old(wanted)[channel.fd := events]
    {
      channel.events := events;
      wanted := wanted[channel.fd := events];
    }

    /** Takes a channel without events out; the last slot moves into the gap.  The
        removed channel keeps its stale index. */
    method RemoveChannel(channel: Channel)
      requires Valid() && channel.fd in channels && channels[channel.fd] == channel && channel.events == 0
      modifies this, (set fd | fd in channels :: channels[fd])`index
      ensures Valid() && channels == old(channels) - {channel.fd} && muted == old(muted) - {channel.fd}
      ensures 0 <= channel.index == old(channel.index) < |old(pollfds)|
      ensures pollfds == SwapRemove(old(pollfds), channel.index)
    {
      var fd, idx := channel.fd, channel.index;
      assert where[fd] == idx && fd >= 0;
      SlotOfChannel(pollfds, where, muted, wanted, fd);
      assert pollfds[idx].fd == -fd - 1 || pollfds[idx].events == channel.events;
      var channelAtEnd := LastOwner(channel);
      var last := idx == |pollfds| - 1;
      ghost var w := (if last then where else where[channelAtEnd := idx]) - {fd};
      EraseAndMove(channel, channelAtEnd, last, w);
      SwapPop(idx);
      muted := muted - {fd};
    }

    /** Whose slot is last. */
    method LastOwner(channel: Channel) returns (fd: int)
      requires Valid() && channel.fd in channels && channels[channel.fd] == channel
      ensures 0 <= channel.index < |pollfds| && channel.index == where[channel.fd]
      ensures fd in channels && fd == Owner(pollfds[|pollfds| - 1].fd)
      ensures fd == channel.fd <==> channel.index == |pollfds| - 1
      ensures var w := (if channel.index == |pollfds| - 1 then where else where[fd := channel.index]) - {channel.fd};
        Good(SwapRemove(pollfds, channel.index), w, muted - {channel.fd}, wanted - {channel.fd})
    {
      fd := pollfds[|pollfds| - 1].fd;
      if fd < 0 {
        fd := -fd - 1;
      }
      assert where[fd] == |pollfds| - 1;
      RemoveKeepsGood(pollfds, where, muted, wanted, channel.fd);
    }

    /** Erases the channel from the map and points the channel of the last slot at the gap. */
    method EraseAndMove(channel: Channel, channelAtEnd: int, last: bool, ghost w: map<int, int>)
      requires Tied() && channel.fd in channels && channels[channel.fd] == channel
      requires channelAtEnd in channels && (last <==> channelAtEnd == channel.fd)
      requires w == (if last then where else where[channelAtEnd := channel.index]) - {channel.fd}
      modifies `channels, `where, `wanted, (set fd | fd in channels :: channels[fd])`index
      ensures Tied() && channels == old(channels) - {channel.fd} && channel.index == old(channel.index)
      ensures where == w
      ensures wanted == old(wanted) - {channel.fd}
    {
      channels := channels - {channel.fd};
      if !last {
        channels[channelAtEnd].index := channel.index;
        where := where[channelAtEnd := channel.index];
      }
      where, wanted := where - {channel.fd}, wanted - {channel.fd};
    }

    method SwapPop(idx: nat)
      requires idx < |pollfds|
      modifies `pollfds
      ensures pollfds == SwapRemove(old(pollfds), idx)
    {
      var n := |pollfds|;
      if idx != n - 1 {
        pollfds := pollfds[idx := pollfds[n - 1]][n - 1 := pollfds[idx]];
      }
      pollfds := pollfds[..n - 1];
    }

    /** poll(2) fills in `revents`, ignoring slots with a negative fd, and counts the
        slots with events. */
    method Poll(revents: seq<nat>) returns (active: seq<Channel>)
      requires Valid() && |revents| == |pollfds|
      requires forall i :: 0 <= i < |pollfds| && pollfds[i].fd < 0 ==> revents[i] == 0
      modifies `pollfds, channels.Values`revents
      ensures Valid() && |pollfds| == |old(pollfds)|
      ensures forall i :: 0 <= i < |pollfds| ==> pollfds[i] == old(pollfds)[i].(revents := revents[i])
      ensures Reported(active, ReadyFrom(pollfds, 0), channels)
      ensures Marked(|pollfds|) && NoRepeats(active)
    {
      var slots := pollfds;
      pollfds := seq(|slots|, i requires 0 <= i < |slots| && |revents| == |slots| => slots[i].(revents := revents[i]));
      assert Good(pollfds, where, muted, wanted);
      active := FillActiveChannels(|ReadyFrom(pollfds, 0)|);
    }

    /** What a scan relies on: each ready slot has a channel of its own. */
    ghost predicate Linked()
      reads `pollfds, `channels
    {
      && (forall i :: 0 <= i < |pollfds| && pollfds[i].revents > 0 ==> pollfds[i].fd in channels)
      && (forall i, j :: 0 <= i < j < |pollfds| ==> pollfds[i].fd != pollfds[j].fd)
      && (forall fd :: fd in channels ==> channels[fd].fd == fd)
    }

    lemma ValidIsLinked()
      requires Valid()
      requires forall i :: 0 <= i < |pollfds| && pollfds[i].revents > 0 ==> pollfds[i].fd >= 0
      ensures Linked()
    {
      forall i | 0 <= i < |pollfds| && pollfds[i].revents > 0 ensures pollfds[i].fd in channels {
        assert pollfds[i].fd in where;
      }
      forall i, j | 0 <= i < j < |pollfds| ensures pollfds[i].fd != pollfds[j].fd {
        assert where[Owner(pollfds[i].fd)] == i && where[Owner(pollfds[j].fd)] == j;
      }
    }

    /** Stops early once `numEvents` ready slots were seen, and misses none. */
    method FillActiveChannels(numEvents: nat) returns (active: seq<Channel>)
      requires Valid() && numEvents == |ReadyFrom(pollfds, 0)|
      requires forall i :: 0 <= i < |pollfds| && pollfds[i].revents > 0 ==> pollfds[i].fd >= 0
      modifies channels.Values`revents
      ensures Valid() && Reported(active, ReadyFrom(pollfds, 0), channels)
      ensures Marked(|pollfds|) && NoRepeats(active)
    {
      ValidIsLinked();
      active := ScanSlots(numEvents);
      ReadyDistinct(pollfds, 0);
    }

    method ScanSlots(numEvents: nat) returns (active: seq<Channel>)
      requires Linked() && numEvents == |ReadyFrom(pollfds, 0)|
      modifies channels.Values`revents
      ensures Reported(active, ReadyFrom(pollfds, 0), channels) && Marked(|pollfds|)
    {
      active := [];
      ghost var seen := [];
      var left, i := numEvents, 0;
      while i < |pollfds| && left > 0
        invariant i <= |pollfds| && Marked(i)
        invariant left == |ReadyFrom(pollfds, i)| && seen + ReadyFrom(pollfds, i) == ReadyFrom(pollfds, 0)
        invariant Reported(active, seen, channels)
      {
        if pollfds[i].revents > 0 {
          ReadyNext(pollfds, i, seen);
          left := left - 1;
          active := ReportSlot(active, seen, i);
          seen := seen + [pollfds[i].fd];
        } else {
          ReadySkip(pollfds, i);
        }
        i := i + 1;
      }
      NoneLeft(pollfds, i);
    }

    method ReportSlot(active: seq<Channel>, ghost seen: seq<int>, i: nat) returns (longer: seq<Channel>)
      requires Linked() && Marked(i) && i < |pollfds| && pollfds[i].revents > 0 && Reported(active, seen, channels)
      modifies channels.Values`revents
      ensures Marked(i + 1) && Reported(longer, seen + [pollfds[i].fd], channels)
    {
      ReportOneMore(active, seen, channels, pollfds[i].fd);
      var channel := channels[pollfds[i].fd];
      SetRevents(channel, i);
      longer := active + [channel];
    }

    /** The channels of the first `n` slots know what poll reported for them. */
    ghost predicate Marked(n: nat)
      reads `pollfds, `channels, channels.Values`revents
    {
      forall k :: 0 <= k < n && k < |pollfds| && pollfds[k].revents > 0 ==>
        pollfds[k].fd in channels && channels[pollfds[k].fd].revents == pollfds[k].revents
    }

    method SetRevents(channel: Channel, i: nat)
      requires Linked() && Marked(i) && i < |pollfds| && pollfds[i].fd in channels && channels[pollfds[i].fd] == channel
      modifies channel`revents
      ensures Marked(i + 1)
    {
      channel.revents := pollfds[i].revents;
      forall k | 0 <= k < i && pollfds[k].revents > 0
        ensures pollfds[k].fd in channels && channels[pollfds[k].fd].revents == pollfds[k].revents
      {
        assert pollfds[k].fd != pollfds[i].fd;
        assert channels[pollfds[k].fd].fd != channel.fd;
      }
    }
  }

  /** A channel that was disabled is never polled again: enabling it later sets the
      events of its slot but leaves the fd negated. */
  method DisableThenEnable(poller: Poller, channel: Channel, events: int)
    requires poller.Valid() && channel.fd >= 0 && channel.fd in poller.channels && poller.channels[channel.fd] == channel
    requires channel.index >= 0
    modifies poller, channel`index, channel`events
    ensures poller.Valid() && channel.events == events
    ensures 0 <= channel.index < |poller.pollfds| && poller.pollfds[channel.index] == PollFd(-channel.fd - 1, events, 0)
  {
    poller.UpdateChannel(channel, 0);
    poller.UpdateChannel(channel, events);
  }

  /** A call on channel `i` of some list. */
  datatype Call = UpdateTo(i: nat, events: int) | RemoveAt(i: nat)

  /** Where a channel stands with the poller: never added, added and updated last to
      these events, or without a slot but with an index as if it had one. */
  datatype Standing = New | In(events: int, negated: bool) | Stale

  /** The map holds some channel with the fd of channel `i`. */
  predicate Held(fds: seq<int>, ss: seq<Standing>, i: nat)
    requires |ss| == |fds| && i < |fds|
  {
    exists j :: 0 <= j < |fds| && ss[j].In? && fds[j] == fds[i]
  }

  /** The assertions of an update of channel `i` hold: it is in the map, or new and no
      other channel with its fd is in. */
  predicate Takes(fds: seq<int>, ss: seq<Standing>, i: nat)
    requires |ss| == |fds| && i < |fds|
  {
    ss[i].In? || (ss[i].New? && !Held(fds, ss, i))
  }

  function OneCall(fds: seq<int>, ss: seq<Standing>, call: Call): (r: seq<Standing>)
    requires |ss| == |fds|
    ensures |r| == |fds|
  {
    if call.i >= |fds| then ss
    else
      var s := ss[call.i];
      match call
      case UpdateTo(i, events) =>
        if !Takes(fds, ss, i) then ss
        else ss[i := In(events, s.In? && (s.negated || events == 0))]
      case RemoveAt(i) => if s.In? && s.events == 0 then ss[i := Stale] else ss
  }

  /** What the calls make of channels with these fds. */
  function After(fds: seq<int>, start: seq<Standing>, calls: seq<Call>): (r: seq<Standing>)
    requires |start| == |fds|
    ensures |r| == |fds|
  {
    if calls == [] then start else OneCall(fds, After(fds, start, calls[..|calls| - 1]), calls[|calls| - 1])
  }

  /** Call `k` updates channel `i`, and its assertions hold. */
  predicate UpdatedBy(fds: seq<int>, start: seq<Standing>, calls: seq<Call>, k: int, i: nat)
    requires |start| == |fds| && i < |fds|
  {
    0 <= k < |calls| && calls[k].UpdateTo? && calls[k].i == i && Takes(fds, After(fds, start, calls[..k]), i)
  }

  /** The events of the last such update, if there was one. */
  function LastEvents(fds: seq<int>, start: seq<Standing>, calls: seq<Call>, i: nat): Option<int>
    requires |start| == |fds| && i < |fds|
  {
    if calls == [] then None
    else if UpdatedBy(fds, start, calls, |calls| - 1, i) then Some(calls[|calls| - 1].events)
    else LastEvents(fds, start, calls[..|calls| - 1], i)
  }

  /** Call `k` takes channel `i` out: it was updated before, last to no events. */
  predicate RemovedBy(fds: seq<int>, start: seq<Standing>, calls: seq<Call>, k: int, i: nat)
    requires |start| == |fds| && i < |fds|
  {
    0 <= k < |calls| && calls[k] == RemoveAt(i) && LastEvents(fds, start, calls[..k], i) == Some(0)
  }

  /** Call `k` disables channel `i` after some earlier update added it. */
  predicate DisabledBy(fds: seq<int>, start: seq<Standing>, calls: seq<Call>, k: int, i: nat)
    requires |start| == |fds| && i < |fds|
  {
    && UpdatedBy(fds, start, calls, k, i) && calls[k].events == 0
    && LastEvents(fds, start, calls[..k], i).Some?
  }

  ghost predicate IsRemoved(fds: seq<int>, start: seq<Standing>, calls: seq<Call>, i: nat)
    requires |start| == |fds| && i < |fds|
  {
    exists k :: RemovedBy(fds, start, calls, k, i)
  }

  ghost predicate IsDisabled(fds: seq<int>, start: seq<Standing>, calls: seq<Call>, i: nat)
    requires |start| == |fds| && i < |fds|
  {
    exists k :: DisabledBy(fds, start, calls, k, i)
  }

  lemma OneMoreCall(fds: seq<int>, start: seq<Standing>, calls: seq<Call>, i: nat)
    requires |start| == |fds| && i < |fds| && calls != []
    ensures var n := |calls| - 1;
      && (IsRemoved(fds, start, calls, i) <==> IsRemoved(fds, start, calls[..n], i) || RemovedBy(fds, start, calls, n, i))
      && (IsDisabled(fds, start, calls, i) <==> IsDisabled(fds, start, calls[..n], i) || DisabledBy(fds, start, calls, n, i))
  {
    var n := |calls| - 1;
    var front := calls[..n];
    forall k | 0 <= k < n
      ensures RemovedBy(fds, start, calls, k, i) <==> RemovedBy(fds, start, front, k, i)
      ensures DisabledBy(fds, start, calls, k, i) <==> DisabledBy(fds, start, front, k, i)
    {
      assert front[..k] == calls[..k];
    }
  }

  /** For a channel no poller had seen, and the updates of it whose assertions hold: it is
      stuck with a stale index exactly when some call removed it, and otherwise its slot
      has the events of its last update and a negated fd exactly when some update but the
      first had no events. */
  lemma {:induction false} StandingExactly(fds: seq<int>, start: seq<Standing>, calls: seq<Call>, i: nat)
    requires |start| == |fds| && i < |fds| && start[i].New?
    ensures var s := After(fds, start, calls)[i]; var last := LastEvents(fds, start, calls, i);
      && (s.Stale? <==> IsRemoved(fds, start, calls, i))
      && (s.New? <==> last == None)
      && (s.In? ==> last == Some(s.events))
      && (!s.Stale? ==> (s.In? && s.negated <==> IsDisabled(fds, start, calls, i)))
  {
    if calls == [] {
    } else {
      OneMoreCall(fds, start, calls, i);
      StandingExactly(fds, start, calls[..|calls| - 1], i);
    }
  }

  /** The shortest run to a stale index... */
  lemma RemovedIsStale(fd: int)
    ensures After([fd], [New], [UpdateTo(0, 0), RemoveAt(0)]) == [Stale]
    ensures !Takes([fd], [Stale], 0)
  {
    var calls := [UpdateTo(0, 0), RemoveAt(0)];
    assert calls[..1] == [UpdateTo(0, 0)] && calls[..1][..0] == [];
    assert After([fd], [New], []) == [New] && !Held([fd], [New], 0);
    assert After([fd], [New], calls[..1]) == [In(0, false)];
  }

  /** ...and a second channel that gets the fd of the first when that was removed, but not
      before. */
  lemma FdIsHandedOver(fd: int, events: int)
    ensures After([fd, fd], [New, New], [UpdateTo(0, 0), UpdateTo(1, events)]) == [In(0, false), New]
    ensures After([fd, fd], [New, New], [UpdateTo(0, 0), RemoveAt(0), UpdateTo(1, events)]) == [Stale, In(events, false)]
  {
    var fds, start := [fd, fd], [New, New];
    var first := [UpdateTo(0, 0)];
    assert first[..0] == [] && After(fds, start, []) == start && !Held(fds, start, 0);
    var added := [In(0, false), New];
    assert After(fds, start, first) == added && added[0].In?;
    var refused := [UpdateTo(0, 0), UpdateTo(1, events)];
    assert refused[..1] == first && Held(fds, added, 1);
    assert After(fds, start, refused) == added;
    var removed := [UpdateTo(0, 0), RemoveAt(0)];
    assert removed[..1] == first && After(fds, start, removed) == [Stale, New];
    var handed := [UpdateTo(0, 0), RemoveAt(0), UpdateTo(1, events)];
    assert handed[..2] == removed && !Held(fds, [Stale, New], 1);
  }

  /** The map holds this channel, and not another one with its fd. */
  predicate Holds(poller: Poller, c: Channel)
    reads poller, c
  {
    c.fd in poller.channels && poller.channels[c.fd] == c
  }

  /** What the assertions of `updateChannel` say of the channel. */
  predicate MayUpdate(poller: Poller, c: Channel)
    reads poller, c
  {
    if c.index < 0 then c.fd !in poller.channels else Holds(poller, c)
  }

  ghost predicate Stands(poller: Poller, c: Channel, s: Standing)
    reads poller, c
  {
    match s
    case New => c.index < 0 && !Holds(poller, c)
    case In(events, negated) => Holds(poller, c) && c.events == events && (c.fd in poller.muted <==> negated)
    case Stale => c.index >= 0 && !Holds(poller, c)
  }

  /** The slot of a channel: its fd, negated or not, and what it asks the kernel for. */
  ghost predicate Placed(poller: Poller, c: Channel, events: int, negated: bool)
    reads poller, c
  {
    && 0 <= c.index < |poller.pollfds|
    && poller.pollfds[c.index].fd == (if negated then -c.fd - 1 else c.fd)
    && poller.pollfds[c.index].events == events
  }

  ghost predicate Tracked(poller: Poller, cs: seq<Channel>, ss: seq<Standing>)
    reads poller, cs
  {
    && |ss| == |cs|
    && (forall i :: 0 <= i < |cs| ==> Stands(poller, cs[i], ss[i]))
    && (forall fd :: fd in poller.channels ==> poller.channels[fd] in cs)
  }

  predicate Listed(cs: seq<Channel>, fds: seq<int>) {
    && |fds| == |cs| && (forall i :: 0 <= i < |cs| ==> cs[i].fd == fds[i] >= 0)
    && (forall i, j :: 0 <= i < j < |cs| ==> cs[i] != cs[j])
  }

  /** The map holds a channel with this fd exactly when some listed one is in. */
  lemma HeldIsInMap(poller: Poller, cs: seq<Channel>, fds: seq<int>, ss: seq<Standing>, i: nat)
    requires poller.Valid() && Listed(cs, fds) && Tracked(poller, cs, ss) && i < |cs|
    ensures Held(fds, ss, i) <==> fds[i] in poller.channels
    ensures MayUpdate(poller, cs[i]) <==> Takes(fds, ss, i)
  {
    if j :| 0 <= j < |fds| && ss[j].In? && fds[j] == fds[i] {
      assert Stands(poller, cs[j], ss[j]);
    }
    if fds[i] in poller.channels {
      var j :| 0 <= j < |cs| && cs[j] == poller.channels[fds[i]];
      assert Stands(poller, cs[j], ss[j]) && ss[j].In?;
    }
    assert Stands(poller, cs[i], ss[i]);
  }

  method TryUpdate(poller: Poller, cs: seq<Channel>, ghost fds: seq<int>, ghost ss: seq<Standing>, i: nat, events: int)
    requires poller.Valid() && Listed(cs, fds) && Tracked(poller, cs, ss) && i < |cs|
    modifies poller, cs
    ensures poller.Valid() && Tracked(poller, cs, OneCall(fds, ss, UpdateTo(i, events)))
  {
    HeldIsInMap(poller, cs, fds, ss, i);
    assert Stands(poller, cs[i], ss[i]);
    if MayUpdate(poller, cs[i]) {
      poller.UpdateChannel(cs[i], events);
      forall j | 0 <= j < |cs| && j != i ensures Stands(poller, cs[j], ss[j]) {
        assert cs[j] != cs[i];
        assert Holds(poller, cs[j]) ==> cs[j].fd != cs[i].fd;
      }
    }
  }

  method TryRemove(poller: Poller, cs: seq<Channel>, ghost fds: seq<int>, ghost ss: seq<Standing>, i: nat)
    requires poller.Valid() && Listed(cs, fds) && Tracked(poller, cs, ss) && i < |cs|
    modifies poller, cs
    ensures poller.Valid() && Tracked(poller, cs, OneCall(fds, ss, RemoveAt(i)))
  {
    assert Stands(poller, cs[i], ss[i]);
    if Holds(poller, cs[i]) && cs[i].events == 0 {
      Remove(poller, cs, fds, ss, i);
    }
  }

  method Remove(poller: Poller, cs: seq<Channel>, ghost fds: seq<int>, ghost ss: seq<Standing>, i: nat)
    requires poller.Valid() && Listed(cs, fds) && Tracked(poller, cs, ss) && i < |cs|
    requires Holds(poller, cs[i]) && cs[i].events == 0
    modifies poller, cs
    ensures poller.Valid() && Tracked(poller, cs, ss[i := Stale])
  {
    poller.RemoveChannel(cs[i]);
  }

  lemma TrackedIsPlaced(poller: Poller, cs: seq<Channel>, ss: seq<Standing>)
    requires poller.Valid() && Tracked(poller, cs, ss)
    requires forall i, j :: 0 <= i < j < |cs| ==> cs[i] != cs[j]
    ensures forall i :: 0 <= i < |cs| && ss[i].In? ==> Placed(poller, cs[i], ss[i].events, ss[i].negated)
    ensures forall i, j :: 0 <= i < j < |cs| && ss[i].In? && ss[j].In? ==> cs[i].index != cs[j].index
  {
    forall i | 0 <= i < |cs| && ss[i].In?
      ensures Holds(poller, cs[i]) && poller.where[cs[i].fd] == cs[i].index
      ensures Placed(poller, cs[i], ss[i].events, ss[i].negated)
    {
      assert Stands(poller, cs[i], ss[i]);
    }
  }

  /** Over every sequence of calls, those left out whose assertions fail, and channels that
      use one fd after the other included: each channel in the map has a slot of its own
      with the events and the sign its calls gave it, there are no other slots, and the
      assertions of the next update hold for exactly the channels that are in, or new and
      whose fd no other channel has. */
  method RunCalls(poller: Poller, cs: seq<Channel>, calls: seq<Call>, ghost fds: seq<int>, ghost start: seq<Standing>)
    requires poller.Valid() && poller.channels == map[]
    requires |fds| == |cs| && forall i :: 0 <= i < |cs| ==> cs[i].fd == fds[i] >= 0
    requires forall i, j :: 0 <= i < j < |cs| ==> cs[i] != cs[j]
    requires |start| == |cs| && forall i :: 0 <= i < |cs| ==> start[i] == if cs[i].index < 0 then New else Stale
    modifies poller, cs
    ensures poller.Valid() && |poller.pollfds| == |poller.channels|
    ensures var ss := After(fds, start, calls);
      && (forall i :: 0 <= i < |cs| ==> Stands(poller, cs[i], ss[i]) && (MayUpdate(poller, cs[i]) <==> Takes(fds, ss, i)))
      && (forall i :: 0 <= i < |cs| && ss[i].In? ==> Placed(poller, cs[i], ss[i].events, ss[i].negated))
      && (forall i, j :: 0 <= i < j < |cs| && ss[i].In? && ss[j].In? ==> cs[i].index != cs[j].index)
    ensures forall fd :: fd in poller.channels ==> poller.channels[fd] in cs
  {
    ghost var ss := start;
    var k := 0;
    while k < |calls|
      invariant k <= |calls| && poller.Valid() && Tracked(poller, cs, ss) && ss == After(fds, start, calls[..k])
    {
      assert calls[..k + 1][..k] == calls[..k] && calls[..k + 1][k] == calls[k];
      if calls[k].i < |cs| {
        match calls[k] {
          case UpdateTo(i, events) => TryUpdate(poller, cs, fds, ss, i, events);
          case RemoveAt(i) => TryRemove(poller, cs, fds, ss, i);
        }
      }
      ss := OneCall(fds, ss, calls[k]);
      k := k + 1;
    }
    assert calls[..k] == calls;
    SameCount(poller.pollfds, poller.where);
    TrackedIsPlaced(poller, cs, ss);
    forall i | 0 <= i < |cs| ensures MayUpdate(poller, cs[i]) <==> Takes(fds, ss, i) {
      HeldIsInMap(poller, cs, fds, ss, i);
    }
  }
}
