/**
 The two pollers: PollPoller, an array of pollfd with back-indices in the channels, and
 EPollPoller, a per-channel registration state next to the kernel's own set.
 */
module Pollers {
  import opened Bytes

  /** A channel: its descriptor, its interest bits, and the index the poller keeps in it. */
  class Channel {
    const fd: nat
    var events: nat
    var index: int

    constructor (fd: nat)
      ensures this.fd == fd && events == 0 && index == -1
    {
      this.fd, events, index := fd, 0, -1;
    }

    predicate IsNoneEvent()
      reads this`events
    {
      events == 0
    }
  }

  datatype PollFd = PollFd(fd: int, events: nat, revents: int)

  /** A descriptor that poll is to ignore is stored as -fd-1. */
  function Decoded(fd: int): (d: nat) {
    if fd >= 0 then fd else -fd - 1
  }

  // ---------- the array and its back-indices ----------

  /** Descriptors and entries are in bijection through the indices; only entries without interest are encoded. */
  ghost predicate Bijective(p: seq<PollFd>, ix: map<nat, int>) {
    && (forall fd {:trigger ix[fd]} :: fd in ix ==> 0 <= ix[fd] < |p| && Decoded(p[ix[fd]].fd) == fd)
    && (forall i {:trigger p[i]} :: 0 <= i < |p| ==>
          Decoded(p[i].fd) in ix && ix[Decoded(p[i].fd)] == i && (p[i].fd < 0 ==> p[i].events == 0))
  }

  ghost function InterestOf(p: seq<PollFd>, ix: map<nat, int>): map<nat, nat>
    requires Bijective(p, ix)
  {
    map fd | fd in ix :: p[ix[fd]].events
  }

  /** The descriptors poll looks at: those of entries that are not encoded, with or without events. */
  ghost function WatchedOf(p: seq<PollFd>, ix: map<nat, int>): set<nat>
    requires Bijective(p, ix)
  {
    set fd | fd in ix && p[ix[fd]].fd >= 0
  }

  /** A new descriptor at the end of the array. */
  lemma SlotAdded(p: seq<PollFd>, ix: map<nat, int>, e: PollFd)
    requires Bijective(p, ix) && e.fd >= 0 && Decoded(e.fd) !in ix
    ensures Bijective(p + [e], ix[Decoded(e.fd) := |p|])
    ensures InterestOf(p + [e], ix[Decoded(e.fd) := |p|]) == InterestOf(p, ix)[Decoded(e.fd) := e.events]
    ensures WatchedOf(p + [e], ix[Decoded(e.fd) := |p|]) == WatchedOf(p, ix) + {Decoded(e.fd)}
  {
  }

  /** A new entry for a registered descriptor. */
  lemma SlotSet(p: seq<PollFd>, ix: map<nat, int>, e: PollFd)
    requires Bijective(p, ix) && Decoded(e.fd) in ix && (e.fd < 0 ==> e.events == 0)
    ensures Bijective(p[ix[Decoded(e.fd)] := e], ix)
    ensures InterestOf(p[ix[Decoded(e.fd)] := e], ix) == InterestOf(p, ix)[Decoded(e.fd) := e.events]
    ensures WatchedOf(p[ix[Decoded(e.fd)] := e], ix)
         == if e.fd >= 0 then WatchedOf(p, ix) + {Decoded(e.fd)} else WatchedOf(p, ix) - {Decoded(e.fd)}
  {
  }

  /** The last entry of the array leaves it. */
  lemma LastSlotRemoved(p: seq<PollFd>, ix: map<nat, int>)
    requires Bijective(p, ix) && p != []
    ensures var fd := Decoded(p[|p| - 1].fd);
            && Bijective(p[..|p| - 1], ix - {fd}) && InterestOf(p[..|p| - 1], ix - {fd}) == InterestOf(p, ix) - {fd}
            && WatchedOf(p[..|p| - 1], ix - {fd}) == WatchedOf(p, ix) - {fd}
  {
    var fd: nat, q := Decoded(p[|p| - 1].fd), p[..|p| - 1];
    forall x | x in ix - {fd} ensures 0 <= ix[x] < |q| && Decoded(q[ix[x]].fd) == x {
      assert ix[x] != |p| - 1;
    }
    forall i | 0 <= i < |q| ensures Decoded(q[i].fd) in ix - {fd} && ix[Decoded(q[i].fd)] == i {
      assert q[i] == p[i];
    }
  }

  /** Another entry leaves the array, and the last one takes its place. */
  lemma SlotReplaced(p: seq<PollFd>, ix: map<nat, int>, i: nat)
    requires Bijective(p, ix) && i < |p| - 1
    ensures var fd, last := Decoded(p[i].fd), p[|p| - 1];
            var q, iy := p[i := last][..|p| - 1], (ix - {fd})[Decoded(last.fd) := i];
            && Decoded(last.fd) in ix - {fd}
            && Bijective(q, iy) && InterestOf(q, iy) == InterestOf(p, ix) - {fd}
            && WatchedOf(q, iy) == WatchedOf(p, ix) - {fd}
  {
    var fd: nat, last := Decoded(p[i].fd), p[|p| - 1];
    var q, iy := p[i := last][..|p| - 1], (ix - {fd})[Decoded(last.fd) := i];
    assert ix[Decoded(last.fd)] == |p| - 1 && ix[fd] == i;
    forall x | x in iy
      ensures 0 <= iy[x] < |q| && Decoded(q[iy[x]].fd) == x && q[iy[x]].events == p[ix[x]].events
              && q[iy[x]].fd == p[ix[x]].fd
    {
      if x != Decoded(last.fd) {
        assert ix[x] != |p| - 1 && ix[x] != i;
      }
    }
    forall k | 0 <= k < |q|
      ensures Decoded(q[k].fd) in iy && iy[Decoded(q[k].fd)] == k && (q[k].fd < 0 ==> q[k].events == 0)
    {
      if k != i {
        assert q[k] == p[k];
      }
    }
  }

  /** The array without its entry `i`, and the indices without that entry's descriptor. */
  function EntriesWithout(p: seq<PollFd>, i: nat): seq<PollFd>
    requires i < |p|
  {
    if i == |p| - 1 then p[..i] else p[i := p[|p| - 1]][..|p| - 1]
  }

  function IndexWithout(p: seq<PollFd>, ix: map<nat, int>, fd: nat, i: nat): map<nat, int>
    requires i < |p|
  {
    if i == |p| - 1 then ix - {fd} else (ix - {fd})[Decoded(p[|p| - 1].fd) := i]
  }

  lemma SlotRemoved(p: seq<PollFd>, ix: map<nat, int>, i: nat)
    requires Bijective(p, ix) && i < |p|
    ensures var fd := Decoded(p[i].fd);
            && (i < |p| - 1 ==> Decoded(p[|p| - 1].fd) in ix.Keys - {fd})
            && Bijective(EntriesWithout(p, i), IndexWithout(p, ix, fd, i))
            && InterestOf(EntriesWithout(p, i), IndexWithout(p, ix, fd, i)) == InterestOf(p, ix) - {fd}
            && WatchedOf(EntriesWithout(p, i), IndexWithout(p, ix, fd, i)) == WatchedOf(p, ix) - {fd}
  {
    if i == |p| - 1 {
      LastSlotRemoved(p, ix);
    } else {
      SlotReplaced(p, ix, i);
    }
  }

  // ---------- which descriptors are watched ----------

  /** updateChannel in PollPoller: a known descriptor without interest is encoded, a new one is not. */
  function PollWatch(known: set<nat>, watched: set<nat>, fd: nat, events: nat): set<nat> {
    if fd in known && events == 0 then watched - {fd} else watched + {fd}
  }

  /**
   updateChannel in EPollPoller: a descriptor without interest leaves the kernel's set if it is in
   it, and enters it if not.
   */
  function EPollWatch(watched: set<nat>, fd: nat, events: nat): set<nat> {
    if fd in watched && events == 0 then watched - {fd} else watched + {fd}
  }

  // ---------- PollPoller ----------

  class PollPoller {
    var pollfds: seq<PollFd>
    var channels: map<nat, Channel>
    ghost var ix: map<nat, int>   // the index of each registered channel

    ghost predicate Indexed()
      reads this, (set fd | fd in channels :: channels[fd])`index
    {
      ix.Keys == channels.Keys && forall fd :: fd in channels ==> channels[fd].fd == fd && channels[fd].index == ix[fd]
    }

    ghost predicate Valid()
      reads this, (set fd | fd in channels :: channels[fd])`index
    {
      Indexed() && Bijective(pollfds, ix)
    }

    /** The interest last given for each registered descriptor. */
    ghost function Interest(): map<nat, nat>
      requires Bijective(pollfds, ix)
      reads this
    {
      InterestOf(pollfds, ix)
    }

    ghost function Watched(): set<nat>
      requires Bijective(pollfds, ix)
      reads this
    {
      WatchedOf(pollfds, ix)
    }

    /** What poll watches for: descriptor and events of every entry that is not encoded and has events. */
    ghost function Monitored(): set<(int, nat)>
      reads this
    {
      set p | p in pollfds && p.fd >= 0 && p.events != 0 :: (p.fd, p.events)
    }

    constructor ()
      ensures Valid() && Interest() == map[] && channels == map[] && Watched() == {}
    {
      pollfds, channels, ix := [], map[], map[];
    }

    method UpdateChannel(channel: Channel)
      requires Valid()
      requires if channel.index < 0 then channel.fd !in channels
               else channel.fd in channels && channels[channel.fd] == channel
      modifies this, channel`index
      ensures Valid() && channels == old(channels)[channel.fd := channel]
      ensures Interest() == old(Interest())[channel.fd := channel.events]
      ensures Watched() == PollWatch(old(channels.Keys), old(Watched()), channel.fd, channel.events)
    {
      if channel.index < 0 {
        AddEntry(channel);
      } else {
        SetEntry(channel);
      }
    }

    /** A channel not yet in the array goes to its end, unencoded even without interest. */
    method AddEntry(channel: Channel)
      requires Valid() && channel.fd !in channels
      modifies this, channel`index
      ensures Valid() && channels == old(channels)[channel.fd := channel]
      ensures Interest() == old(Interest())[channel.fd := channel.events]
      ensures Watched() == old(Watched()) + {channel.fd}
    {
      SlotAdded(pollfds, ix, PollFd(channel.fd, channel.events, 0));
      ix := ix[channel.fd := |pollfds|];
      pollfds := pollfds + [PollFd(channel.fd, channel.events, 0)];
      channel.index := |pollfds| - 1;
      channels := channels[channel.fd := channel];
    }

    method SetEntry(channel: Channel)
      requires Valid() && channel.fd in channels && channels[channel.fd] == channel
      modifies this`pollfds
      ensures Valid() && Interest() == old(Interest())[channel.fd := channel.events]
      ensures Watched() == if channel.events == 0 then old(Watched()) - {channel.fd} else old(Watched()) + {channel.fd}
    {
      var fd: int := channel.fd;
      var idx := channel.index;
      assert idx == ix[channel.fd];
      var pfd := PollFd(if channel.IsNoneEvent() then -fd - 1 else fd, channel.events, 0);
      SlotSet(pollfds, ix, pfd);
      pollfds := pollfds[idx := pfd];
    }

    /** The last entry takes the place of the removed one, and its channel learns its new index. */
    method RemoveChannel(channel: Channel)
      requires Valid() && channel.fd in channels && channels[channel.fd] == channel
      requires channel.IsNoneEvent() && Interest()[channel.fd] == channel.events
      modifies this, (set fd | fd in channels :: channels[fd])`index
      ensures Valid() && channels == old(channels) - {channel.fd}
      ensures Interest() == old(Interest()) - {channel.fd} && Watched() == old(Watched()) - {channel.fd}
    {
      var idx := channel.index;
      assert idx == ix[channel.fd];
      assert Decoded(pollfds[idx].fd) == channel.fd && pollfds[idx].events == channel.events;
      SlotRemoved(pollfds, ix, idx);
      Drop(channel.fd, idx);
    }

    method Drop(fd: nat, idx: nat)
      requires Indexed() && idx < |pollfds|
      requires idx < |pollfds| - 1 ==> Decoded(pollfds[|pollfds| - 1].fd) in channels.Keys - {fd}
      modifies this, (set x | x in channels :: channels[x])`index
      ensures Indexed() && channels == old(channels) - {fd}
      ensures pollfds == EntriesWithout(old(pollfds), idx) && ix == IndexWithout(old(pollfds), old(ix), fd, idx)
    {
      channels := channels - {fd};
      ix := ix - {fd};
      if idx == |pollfds| - 1 {
        pollfds := pollfds[..idx];
      } else {
        MoveLast(idx);
      }
    }

    /** iter_swap with the last entry, whose channel learns its new index, and pop_back. */
    method MoveLast(idx: nat)
      requires Indexed() && idx < |pollfds| - 1 && Decoded(pollfds[|pollfds| - 1].fd) in channels
      modifies this`pollfds, this`ix
      modifies (set fd | fd in channels && fd == Decoded(pollfds[|pollfds| - 1].fd) :: channels[fd])`index
      ensures Indexed() && pollfds == old(pollfds[idx := pollfds[|pollfds| - 1]][..|pollfds| - 1])
      ensures ix == old(ix)[Decoded(old(pollfds[|pollfds| - 1]).fd) := idx]
    {
      var last := pollfds[|pollfds| - 1];
      pollfds := pollfds[idx := last][..|pollfds| - 1];
      ix := ix[Decoded(last.fd) := idx];
      channels[Decoded(last.fd)].index := idx;
    }

    /** The channels of the entries that fired, in array order, until numEvents of them were seen. */
    method FillActiveChannels(numEvents: nat) returns (active: seq<(Channel, int)>)
      requires Valid()
      ensures |active| == |Fired(pollfds, numEvents)|
      ensures forall i :: 0 <= i < |active| ==>
                var p := Fired(pollfds, numEvents)[i];
                Decoded(p.fd) in channels && active[i] == (channels[Decoded(p.fd)], p.revents)
    {
      EntriesRegistered(pollfds, ix);
      active := Select(pollfds, channels, numEvents);
    }

    /** poll watches exactly the registered descriptors with non-empty interest. */
    lemma MonitorsInterest()
      requires Valid()
      ensures Monitored() == Wanted(Interest())
    {
      forall p | p in pollfds && p.fd >= 0 && p.events != 0 ensures (p.fd, p.events) in Wanted(Interest()) {
        var i :| 0 <= i < |pollfds| && pollfds[i] == p;
        assert ix[Decoded(p.fd)] == i && Interest()[Decoded(p.fd)] == p.events;
      }
      forall fd | fd in Interest() && Interest()[fd] != 0 ensures (fd as int, Interest()[fd]) in Monitored() {
        var p := pollfds[ix[fd]];
        assert p in pollfds && p.fd == fd;
      }
    }
  }

  function Fired(pollfds: seq<PollFd>, n: nat): seq<PollFd> {
    if pollfds == [] || n == 0 then []
    else if pollfds[0].revents > 0 then [pollfds[0]] + Fired(pollfds[1..], n - 1)
    else Fired(pollfds[1..], n)
  }

  lemma FiredFrom(pollfds: seq<PollFd>, i: nat, n: nat)
    requires i < |pollfds| && n > 0
    ensures Fired(pollfds[i..], n) == if pollfds[i].revents > 0 then [pollfds[i]] + Fired(pollfds[i + 1..], n - 1)
                                      else Fired(pollfds[i + 1..], n)
  {
    assert pollfds[i..][1..] == pollfds[i + 1..];
  }

  method Select(entries: seq<PollFd>, table: map<nat, Channel>, numEvents: nat) returns (active: seq<(Channel, int)>)
    requires forall i :: 0 <= i < |entries| ==> Decoded(entries[i].fd) in table
    ensures |active| == |Fired(entries, numEvents)|
    ensures forall i :: 0 <= i < |active| ==>
              var p := Fired(entries, numEvents)[i];
              Decoded(p.fd) in table && active[i] == (table[Decoded(p.fd)], p.revents)
  {
    active := [];
    ghost var goal := Fired(entries, numEvents);
    var left: nat := numEvents;
    var i := 0;
    while i < |entries| && left > 0
      invariant 0 <= i <= |entries| && |active| <= |goal|
      invariant goal[|active|..] == Fired(entries[i..], left)
      invariant forall k :: 0 <= k < |active| ==>
                  Decoded(goal[k].fd) in table && active[k] == (table[Decoded(goal[k].fd)], goal[k].revents)
    {
      var pfd := entries[i];
      FiredFrom(entries, i, left);
      if pfd.revents > 0 {
        assert goal[|active|] == goal[|active|..][0] == pfd;
        assert goal[|active| + 1..] == goal[|active|..][1..];
        left := left - 1;
        active := active + [(table[Decoded(pfd.fd)], pfd.revents)];
      }
      i := i + 1;
    }
    assert goal[|active|..] == [];
  }

  lemma EntriesRegistered(p: seq<PollFd>, ix: map<nat, int>)
    requires Bijective(p, ix)
    ensures forall i :: 0 <= i < |p| ==> Decoded(p[i].fd) in ix
  {
  }

  /** With at least as many events announced as entries fired, every fired entry is listed, and no other. */
  lemma {:induction false} FiredIsComplete(pollfds: seq<PollFd>, n: nat)
    requires n >= |Fired(pollfds, |pollfds|)|
    ensures forall p :: p in pollfds && p.revents > 0 <==> p in Fired(pollfds, n)
    ensures Fired(pollfds, n) == Fired(pollfds, |pollfds|)
  {
    if pollfds != [] {
      var rest := pollfds[1..];
      assert forall p :: p in pollfds <==> p == pollfds[0] || p in rest;
      if pollfds[0].revents > 0 {
        FiredIsComplete(rest, n - 1);
      } else {
        FiredLonger(rest);
        FiredIsComplete(rest, n);
        FiredIsComplete(rest, |pollfds|);
      }
    }
  }

  lemma {:induction false} FiredLonger(pollfds: seq<PollFd>)
    ensures Fired(pollfds, |pollfds| + 1) == Fired(pollfds, |pollfds|)
    ensures |Fired(pollfds, |pollfds|)| <= |pollfds|
  {
    if pollfds != [] {
      FiredLonger(pollfds[1..]);
      if pollfds[0].revents <= 0 {
        FiredMore(pollfds[1..], |pollfds| + 1);
        FiredMore(pollfds[1..], |pollfds|);
      }
    }
  }

  lemma {:induction false} FiredMore(pollfds: seq<PollFd>, n: nat)
    requires n >= |pollfds|
    ensures Fired(pollfds, n) == Fired(pollfds, |pollfds|)
    decreases |pollfds|
  {
    if pollfds != [] {
      if pollfds[0].revents > 0 {
        FiredMore(pollfds[1..], n - 1);
      } else {
        FiredMore(pollfds[1..], n);
        FiredMore(pollfds[1..], |pollfds|);
      }
    }
  }

  /** The pairs of descriptor and non-empty interest. */
  ghost function Wanted(interest: map<nat, nat>): set<(int, nat)> {
    set fd | fd in interest && interest[fd] != 0 :: (fd as int, interest[fd])
  }

  // ---------- EPollPoller ----------

  const NEW := -1
  const ADDED := 1
  const DELETED := 2

  datatype Ctl = CtlAdd | CtlMod | CtlDel

  class EPollPoller {
    var channels: map<nat, Channel>
    ghost var kernel: map<nat, (Channel, nat)>  // the epoll set: channel and events by descriptor
    ghost var refusals: nat                     // operations the kernel refused

    /** A registered channel is in the kernel's set exactly in state ADDED, and the kernel has refused nothing. */
    ghost predicate Valid()
      reads this, (set fd | fd in channels :: channels[fd])`index
    {
      && refusals == 0
      && (forall fd :: fd in channels ==>
            && channels[fd].fd == fd && (channels[fd].index == ADDED || channels[fd].index == DELETED)
            && (channels[fd].index == ADDED <==> fd in kernel))
      && (forall fd :: fd in kernel ==> fd in channels && kernel[fd].0 == channels[fd])
    }

    ghost function Interest(): map<nat, nat>
      requires Valid()
      reads this, (set fd | fd in channels :: channels[fd])`index
    {
      map fd | fd in channels :: if fd in kernel then kernel[fd].1 else 0
    }

    /** The descriptors in the kernel's set, with or without events. */
    ghost function Watched(): set<nat>
      reads this
    {
      kernel.Keys
    }

    ghost function Monitored(): set<(int, nat)>
      reads this
    {
      set fd | fd in kernel && kernel[fd].1 != 0 :: (fd as int, kernel[fd].1)
    }

    constructor ()
      ensures Valid() && Interest() == map[] && channels == map[] && Watched() == {}
    {
      channels, kernel, refusals := map[], map[], 0;
    }

    /** epoll_ctl: ADD is refused for a descriptor already in the set, MOD and DEL for one that is not. */
    method Update(operation: Ctl, channel: Channel)
      modifies this`kernel, this`refusals
      ensures var legal := if operation == CtlAdd then channel.fd !in old(kernel) else channel.fd in old(kernel);
              && refusals == old(refusals) + (if legal then 0 else 1)
              && (legal ==> kernel == if operation == CtlDel then old(kernel) - {channel.fd}
                                      else old(kernel)[channel.fd := (channel, channel.events)])
              && (!legal ==> kernel == old(kernel))
    {
      ghost var legal := if operation == CtlAdd then channel.fd !in kernel else channel.fd in kernel;
      if legal {
        kernel := if operation == CtlDel then kernel - {channel.fd}
                  else kernel[channel.fd := (channel, channel.events)];
      } else {
        refusals := refusals + 1;
      }
    }

    method UpdateChannel(channel: Channel)
      requires Valid()
      requires if channel.index == NEW then channel.fd !in channels
               else channel.fd in channels && channels[channel.fd] == channel
      modifies this, channel`index
      ensures Valid() && channels == old(channels)[channel.fd := channel]
      ensures Interest() == old(Interest())[channel.fd := channel.events]
      ensures Watched() == EPollWatch(old(Watched()), channel.fd, channel.events)
    {
      if channel.index == NEW || channel.index == DELETED {
        Add(channel);
        return;
      }
      assert channel.index == ADDED;
      if channel.IsNoneEvent() {
        Update(CtlDel, channel);
        channel.index := DELETED;
        return;
      }
      Update(CtlMod, channel);
    }

    /** A channel that is new, or whose interest was empty before, enters the kernel's set. */
    method Add(channel: Channel)
      requires Valid() && (channel.index == NEW || channel.index == DELETED)
      requires if channel.index == NEW then channel.fd !in channels
               else channel.fd in channels && channels[channel.fd] == channel
      modifies this, channel`index
      ensures Valid() && channels == old(channels)[channel.fd := channel]
      ensures Interest() == old(Interest())[channel.fd := channel.events]
      ensures Watched() == old(Watched()) + {channel.fd} && channel.fd !in old(Watched())
    {
      if channel.index == NEW {
        channels := channels[channel.fd := channel];
      }
      channel.index := ADDED;
      Update(CtlAdd, channel);
    }

    method RemoveChannel(channel: Channel)
      requires Valid() && channel.fd in channels && channels[channel.fd] == channel && channel.IsNoneEvent()
      modifies this, channel`index
      ensures Valid() && channels == old(channels) - {channel.fd} && channel.index == NEW
      ensures Interest() == old(Interest()) - {channel.fd} && Watched() == old(Watched()) - {channel.fd}
    {
      var index := channel.index;
      assert index == ADDED || index == DELETED;
      channels := channels - {channel.fd};
      if index == ADDED {
        Update(CtlDel, channel);
      }
      channel.index := NEW;
    }

    lemma MonitorsInterest()
      requires Valid()
      ensures Monitored() == Wanted(Interest())
    {
      forall fd | fd in kernel && kernel[fd].1 != 0 ensures (fd as int, kernel[fd].1) in Wanted(Interest()) {
        assert Interest()[fd] == kernel[fd].1;
      }
      forall fd | fd in Interest() && Interest()[fd] != 0 ensures (fd as int, Interest()[fd]) in Monitored() {
        assert fd in kernel && kernel[fd].1 == Interest()[fd];
      }
    }
  }

  // ---------- both, on one history ----------

  /** One operation on a descriptor: a change of interest, registering it if it is new, or its removal. */
  datatype Op = SetEvents(fd: nat, events: nat) | Forget(fd: nat)

  function Applied(interest: map<nat, nat>, op: Op): map<nat, nat> {
    match op
    case SetEvents(fd, events) => interest[fd := events]
    case Forget(fd) => interest - {fd}
  }

  /** A descriptor is removed only while registered and without interest. */
  predicate Legal(interest: map<nat, nat>, history: seq<Op>)
    decreases |history|
  {
    history == [] ||
    (&& (history[0].Forget? ==> history[0].fd in interest && interest[history[0].fd] == 0)
     && Legal(Applied(interest, history[0]), history[1..]))
  }

  function Outcome(interest: map<nat, nat>, history: seq<Op>): map<nat, nat>
    decreases |history|
  {
    if history == [] then interest else Outcome(Applied(interest, history[0]), history[1..])
  }

  ghost function EventsOf(channels: map<nat, Channel>): map<nat, nat>
    reads (set fd | fd in channels :: channels[fd])`events
  {
    map fd | fd in channels :: channels[fd].events
  }

  method ChangeEvents(channel: Channel, events: nat, ghost channels: map<nat, Channel>)
    requires forall fd :: fd in channels ==> channels[fd].fd == fd
    modifies channel`events
    ensures channel.events == events
    ensures EventsOf(channels[channel.fd := channel]) == old(EventsOf(channels))[channel.fd := events]
  {
    channel.events := events;
  }

  function PollWatched(interest: map<nat, nat>, watched: set<nat>, history: seq<Op>): set<nat>
    decreases |history|
  {
    if history == [] then watched
    else
      PollWatched(Applied(interest, history[0]), PollWatches(interest, watched, history[0]), history[1..])
  }

  function PollWatches(interest: map<nat, nat>, watched: set<nat>, op: Op): set<nat> {
    match op
    case SetEvents(fd, events) => PollWatch(interest.Keys, watched, fd, events)
    case Forget(fd) => watched - {fd}
  }

  function EPollWatched(watched: set<nat>, history: seq<Op>): set<nat>
    decreases |history|
  {
    if history == [] then watched else EPollWatched(EPollWatches(watched, history[0]), history[1..])
  }

  function EPollWatches(watched: set<nat>, op: Op): set<nat> {
    match op
    case SetEvents(fd, events) => EPollWatch(watched, fd, events)
    case Forget(fd) => watched - {fd}
  }

  /** Both back ends watch every descriptor with interest; they differ on quiet ones only. */
  lemma {:induction false} InterestIsWatched(interest: map<nat, nat>, p: set<nat>, e: set<nat>, history: seq<Op>)
    requires forall fd :: fd in interest && interest[fd] != 0 ==> fd in p && fd in e
    requires p <= interest.Keys && e <= interest.Keys
    ensures var i := Outcome(interest, history);
            && (forall fd :: fd in i && i[fd] != 0 ==>
                  fd in PollWatched(interest, p, history) && fd in EPollWatched(e, history))
            && PollWatched(interest, p, history) <= i.Keys && EPollWatched(e, history) <= i.Keys
    decreases |history|
  {
    if history != [] {
      InterestIsWatched(Applied(interest, history[0]), PollWatches(interest, p, history[0]),
                        EPollWatches(e, history[0]), history[1..]);
    }
  }

  /** They do differ: a quiet channel updated again is still watched by epoll and not by poll. */
  lemma QuietDiffers(fd: nat)
    ensures var history := [SetEvents(fd, 1), SetEvents(fd, 0), SetEvents(fd, 0)];
            && Legal(map[], history) && Outcome(map[], history) == map[fd := 0]
            && fd !in PollWatched(map[], {}, history) && fd in EPollWatched({}, history)
  {
    var one, two, three := [SetEvents(fd, 0)], [SetEvents(fd, 0), SetEvents(fd, 0)],
        [SetEvents(fd, 1), SetEvents(fd, 0), SetEvents(fd, 0)];
    assert one[1..] == [] && two[1..] == one && three[1..] == two;
    var up, quiet: map<nat, nat> := map[fd := 1], map[fd := 0];
    assert Applied(map[], SetEvents(fd, 1)) == up
           && Applied(up, SetEvents(fd, 0)) == quiet == Applied(quiet, SetEvents(fd, 0));
    assert Outcome(quiet, one) == Outcome(quiet, one[1..]) == quiet;
    assert Outcome(up, two) == Outcome(quiet, two[1..]) == quiet;
    assert Legal(quiet, one) && Legal(up, two);
    assert PollWatch({fd}, {fd}, fd, 0) == {} && PollWatch({fd}, {}, fd, 0) == {};
    assert quiet.Keys == {fd} && up.Keys == {fd};
    assert PollWatched(quiet, {}, one) == PollWatched(quiet, {}, one[1..]) == {};
    assert PollWatched(up, {fd}, two) == PollWatched(quiet, {}, two[1..]);
    assert EPollWatch({fd}, fd, 0) == {} && EPollWatch({}, fd, 0) == {fd};
    assert EPollWatched({}, one) == EPollWatched({fd}, one[1..]) == {fd};
    assert EPollWatched({fd}, two) == EPollWatched({}, two[1..]);
  }

  // ---------- exactly where they agree ----------

  /** How often interest was set to nothing since it last was something, or since registration. */
  function QuietRun(history: seq<Op>, fd: nat): nat {
    if history == [] then 0
    else
      var n := |history| - 1;
      match history[n]
      case SetEvents(f, events) =>
        if f != fd then QuietRun(history[..n], fd) else if events == 0 then QuietRun(history[..n], fd) + 1 else 0
      case Forget(f) => if f != fd then QuietRun(history[..n], fd) else 0
  }

  /** No interest since registration. */
  predicate NeverHad(history: seq<Op>, fd: nat) {
    history == [] ||
    var n := |history| - 1;
    match history[n]
    case SetEvents(f, events) => (f == fd ==> events == 0) && NeverHad(history[..n], fd)
    case Forget(f) => f == fd || NeverHad(history[..n], fd)
  }

  lemma {:induction false} OutcomeLast(interest: map<nat, nat>, history: seq<Op>, op: Op)
    ensures Outcome(interest, history + [op]) == Applied(Outcome(interest, history), op)
    decreases |history|
  {
    if history == [] {
      assert [op][1..] == [] && history + [op] == [op];
    } else {
      assert (history + [op])[1..] == history[1..] + [op];
      OutcomeLast(Applied(interest, history[0]), history[1..], op);
    }
  }

  lemma {:induction false} PollLast(interest: map<nat, nat>, watched: set<nat>, history: seq<Op>, op: Op)
    ensures PollWatched(interest, watched, history + [op]) ==
            PollWatches(Outcome(interest, history), PollWatched(interest, watched, history), op)
    decreases |history|
  {
    if history == [] {
      assert [op][1..] == [] && history + [op] == [op];
    } else {
      assert (history + [op])[1..] == history[1..] + [op];
      PollLast(Applied(interest, history[0]), PollWatches(interest, watched, history[0]), history[1..], op);
    }
  }

  lemma {:induction false} EPollLast(watched: set<nat>, history: seq<Op>, op: Op)
    ensures EPollWatched(watched, history + [op]) == EPollWatches(EPollWatched(watched, history), op)
    decreases |history|
  {
    if history == [] {
      assert [op][1..] == [] && history + [op] == [op];
    } else {
      assert (history + [op])[1..] == history[1..] + [op];
      EPollLast(EPollWatches(watched, history[0]), history[1..], op);
    }
  }

  lemma LastOp(history: seq<Op>)
    requires history != []
    ensures var rest, op := history[..|history| - 1], history[|history| - 1];
            && Outcome(map[], history) == Applied(Outcome(map[], rest), op)
            && PollWatched(map[], {}, history) == PollWatches(Outcome(map[], rest), PollWatched(map[], {}, rest), op)
            && EPollWatched({}, history) == EPollWatches(EPollWatched({}, rest), op)
  {
    var rest, op := history[..|history| - 1], history[|history| - 1];
    assert history == rest + [op];
    OutcomeLast(map[], rest, op);
    PollLast(map[], {}, rest, op);
    EPollLast({}, rest, op);
  }

  /** After any history, which descriptors each back end watches, quiet ones included. */
  lemma {:induction false} WatchedExactly(history: seq<Op>, fd: nat)
    ensures var i, n := Outcome(map[], history), QuietRun(history, fd);
            && (n > 0 <==> fd in i && i[fd] == 0)
            && (fd !in i ==> NeverHad(history, fd))
            && (fd in i && i[fd] != 0 ==> !NeverHad(history, fd))
            && (fd in PollWatched(map[], {}, history) <==> fd in i && (n > 0 ==> NeverHad(history, fd) && n == 1))
            && (fd in EPollWatched({}, history) <==> fd in i && (n > 0 ==> (n % 2 == 1 <==> NeverHad(history, fd))))
    decreases |history|
  {
    if history != [] {
      LastOp(history);
      WatchedExactly(history[..|history| - 1], fd);
    }
  }

  /** Whether both watch a descriptor or neither does, from its own updates alone. */
  predicate WatchedAlike(history: seq<Op>, fd: nat) {
    var n := QuietRun(history, fd);
    n == 0 || if NeverHad(history, fd) then n == 1 || n % 2 == 0 else n % 2 == 1
  }

  /**
   The back ends agree on a descriptor exactly if it has interest or is not registered, or is
   quiet after an odd number of updates without interest, or, if it never had any, after one
   update or an even number of them.
   */
  lemma AgreeExactly(history: seq<Op>, fd: nat)
    ensures (fd in PollWatched(map[], {}, history) <==> fd in EPollWatched({}, history)) <==> WatchedAlike(history, fd)
  {
    WatchedExactly(history, fd);
  }

  ghost predicate PollHolds(poll: PollPoller, interest: map<nat, nat>, watched: set<nat>)
    reads poll, set fd | fd in poll.channels :: poll.channels[fd]
  {
    poll.Valid() && poll.Interest() == interest && EventsOf(poll.channels) == interest && poll.Watched() == watched
  }

  method PollForget(poll: PollPoller, fd: nat, ghost interest: map<nat, nat>, ghost watched: set<nat>)
    requires PollHolds(poll, interest, watched) && fd in interest && interest[fd] == 0
    modifies poll, set f | f in poll.channels :: poll.channels[f]
    ensures PollHolds(poll, interest - {fd}, watched - {fd}) && poll.channels == old(poll.channels) - {fd}
  {
    assert fd in poll.Interest();
    poll.RemoveChannel(poll.channels[fd]);
  }

  method PollUpdate(poll: PollPoller, channel: Channel, ghost interest: map<nat, nat>, ghost watched: set<nat>)
    requires poll.Valid() && poll.Interest() == interest && poll.Watched() == watched
    requires poll.channels.Keys == interest.Keys
    requires if channel.index < 0 then channel.fd !in poll.channels
             else channel.fd in poll.channels && poll.channels[channel.fd] == channel
    modifies poll, channel`index
    ensures poll.Valid() && poll.Interest() == interest[channel.fd := channel.events]
    ensures poll.Watched() == PollWatch(interest.Keys, watched, channel.fd, channel.events)
    ensures poll.channels == old(poll.channels)[channel.fd := channel]
    ensures EventsOf(poll.channels) == old(EventsOf(poll.channels[channel.fd := channel]))
  {
    poll.UpdateChannel(channel);
  }

  method PollSet(poll: PollPoller, channel: Channel, events: nat, ghost interest: map<nat, nat>,
                 ghost watched: set<nat>)
    requires PollHolds(poll, interest, watched)
    requires if channel.index < 0 then channel.fd !in poll.channels
             else channel.fd in poll.channels && poll.channels[channel.fd] == channel
    modifies poll, channel
    ensures PollHolds(poll, interest[channel.fd := events], PollWatch(interest.Keys, watched, channel.fd, events))
    ensures poll.channels == old(poll.channels)[channel.fd := channel]
  {
    assert poll.channels.Keys == interest.Keys by {
      assert EventsOf(poll.channels).Keys == poll.channels.Keys;
    }
    ChangeEvents(channel, events, poll.channels);
    PollUpdate(poll, channel, interest, watched);
  }

  method PollStep(poll: PollPoller, op: Op, ghost interest: map<nat, nat>, ghost watched: set<nat>)
    requires PollHolds(poll, interest, watched) && Legal(interest, [op])
    modifies poll, set fd | fd in poll.channels :: poll.channels[fd]
    ensures PollHolds(poll, Applied(interest, op), PollWatches(interest, watched, op))
    ensures forall fd :: fd in poll.channels ==>
              fresh(poll.channels[fd]) || (fd in old(poll.channels) && poll.channels[fd] == old(poll.channels)[fd])
  {
    if op.Forget? {
      PollForget(poll, op.fd, interest, watched);
    } else if op.fd in poll.channels {
      assert poll.channels[op.fd].fd == op.fd && poll.ix[op.fd] >= 0;
      PollSet(poll, poll.channels[op.fd], op.events, interest, watched);
    } else {
      var c := new Channel(op.fd);
      PollSet(poll, c, op.events, interest, watched);
    }
  }

  method DrivePoll(history: seq<Op>) returns (poll: PollPoller)
    requires Legal(map[], history)
    ensures poll.Valid() && poll.Interest() == Outcome(map[], history)
    ensures poll.Watched() == PollWatched(map[], {}, history) && poll.Monitored() == Wanted(Outcome(map[], history))
  {
    poll := new PollPoller();
    var i := 0;
    ghost var interest: map<nat, nat>, watched: set<nat> := map[], {};
    while i < |history|
      invariant 0 <= i <= |history| && fresh(poll) && PollHolds(poll, interest, watched)
      invariant Legal(interest, history[i..]) && Outcome(interest, history[i..]) == Outcome(map[], history)
      invariant PollWatched(interest, watched, history[i..]) == PollWatched(map[], {}, history)
      invariant forall fd :: fd in poll.channels ==> fresh(poll.channels[fd])
    {
      assert history[i..][1..] == history[i + 1..];
      PollStep(poll, history[i], interest, watched);
      interest, watched := Applied(interest, history[i]), PollWatches(interest, watched, history[i]);
      i := i + 1;
    }
    poll.MonitorsInterest();
  }

  ghost predicate EPollHolds(epoll: EPollPoller, interest: map<nat, nat>, watched: set<nat>)
    reads epoll, set fd | fd in epoll.channels :: epoll.channels[fd]
  {
    epoll.Valid() && epoll.Interest() == interest && EventsOf(epoll.channels) == interest && epoll.Watched() == watched
  }

  method EPollForget(epoll: EPollPoller, fd: nat, ghost interest: map<nat, nat>, ghost watched: set<nat>)
    requires EPollHolds(epoll, interest, watched) && fd in interest && interest[fd] == 0
    modifies epoll, set f | f in epoll.channels :: epoll.channels[f]
    ensures EPollHolds(epoll, interest - {fd}, watched - {fd}) && epoll.channels == old(epoll.channels) - {fd}
  {
    assert fd in epoll.Interest();
    epoll.RemoveChannel(epoll.channels[fd]);
  }

  method EPollSet(epoll: EPollPoller, channel: Channel, events: nat, ghost interest: map<nat, nat>,
                  ghost watched: set<nat>)
    requires EPollHolds(epoll, interest, watched)
    requires if channel.index == NEW then channel.fd !in epoll.channels
             else channel.fd in epoll.channels && epoll.channels[channel.fd] == channel
    modifies epoll, channel
    ensures EPollHolds(epoll, interest[channel.fd := events], EPollWatch(watched, channel.fd, events))
    ensures epoll.channels == old(epoll.channels)[channel.fd := channel]
  {
    ChangeEvents(channel, events, epoll.channels);
    epoll.UpdateChannel(channel);
  }

  method EPollStep(epoll: EPollPoller, op: Op, ghost interest: map<nat, nat>, ghost watched: set<nat>)
    requires EPollHolds(epoll, interest, watched) && Legal(interest, [op])
    modifies epoll, set fd | fd in epoll.channels :: epoll.channels[fd]
    ensures EPollHolds(epoll, Applied(interest, op), EPollWatches(watched, op))
    ensures forall fd :: fd in epoll.channels ==>
              fresh(epoll.channels[fd]) || (fd in old(epoll.channels) && epoll.channels[fd] == old(epoll.channels)[fd])
  {
    if op.Forget? {
      EPollForget(epoll, op.fd, interest, watched);
    } else if op.fd in epoll.channels {
      assert epoll.channels[op.fd].fd == op.fd && epoll.channels[op.fd].index != NEW;
      EPollSet(epoll, epoll.channels[op.fd], op.events, interest, watched);
    } else {
      var c := new Channel(op.fd);
      EPollSet(epoll, c, op.events, interest, watched);
    }
  }

  method DriveEPoll(history: seq<Op>) returns (epoll: EPollPoller)
    requires Legal(map[], history)
    ensures epoll.Valid() && epoll.Interest() == Outcome(map[], history)
    ensures epoll.Watched() == EPollWatched({}, history) && epoll.Monitored() == Wanted(Outcome(map[], history))
  {
    epoll := new EPollPoller();
    var i := 0;
    ghost var interest: map<nat, nat>, watched: set<nat> := map[], {};
    while i < |history|
      invariant 0 <= i <= |history| && fresh(epoll) && EPollHolds(epoll, interest, watched)
      invariant Legal(interest, history[i..]) && Outcome(interest, history[i..]) == Outcome(map[], history)
      invariant EPollWatched(watched, history[i..]) == EPollWatched({}, history)
      invariant forall fd :: fd in epoll.channels ==> fresh(epoll.channels[fd])
    {
      assert history[i..][1..] == history[i + 1..];
      EPollStep(epoll, history[i], interest, watched);
      interest, watched := Applied(interest, history[i]), EPollWatches(watched, history[i]);
      i := i + 1;
    }
    epoll.MonitorsInterest();
  }

  /**
   The same history given to both pollers, a new channel for each registration: both keep
   their invariants, the kernel refuses nothing, and both watch the same descriptors for the
   same events, namely those of non-empty interest. Each watches some quiet descriptors too,
   for hang-up and error; on which of these they agree depends on the updates alone.
   */
  method DriveBoth(history: seq<Op>) returns (poll: PollPoller, epoll: EPollPoller)
    requires Legal(map[], history)
    ensures poll.Valid() && epoll.Valid()
    ensures poll.Interest() == epoll.Interest() == Outcome(map[], history)
    ensures poll.Monitored() == epoll.Monitored() == Wanted(Outcome(map[], history))
    ensures poll.Watched() == PollWatched(map[], {}, history) && epoll.Watched() == EPollWatched({}, history)
    ensures forall fd: nat :: (fd in poll.Watched() <==> fd in epoll.Watched()) <==> WatchedAlike(history, fd)
  {
    poll := DrivePoll(history);
    epoll := DriveEPoll(history);
    forall fd: nat ensures (fd in poll.Watched() <==> fd in epoll.Watched()) <==> WatchedAlike(history, fd) {
      AgreeExactly(history, fd);
    }
  }
}
