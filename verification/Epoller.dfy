// Epoller and Channel as objects. The kernel's interest set is keyed by descriptor, the channel's own flag by
// object; the two agree for as long as no two channels in use share a descriptor.

module Epollers {

  const MAX_EVENTS: nat := 1000

  datatype Event = Readable | Urgent | PeerClosed | Writable

  class Channel {
    const fd: int
    var listenEvents: set<Event>
    var readyEvents: set<Event>
    var inEpoll: bool

    constructor (fd: int)
      ensures this.fd == fd && !inEpoll && listenEvents == {} && readyEvents == {}
    {
      this.fd := fd;
      listenEvents, readyEvents, inEpoll := {}, {}, false;
    }
  }

  datatype Registration = Registration(channel: Channel, events: set<Event>)

  class Epoller {
    /** What the kernel holds. */
    var interest: map<int, Registration>

    constructor ()
      ensures interest == map[]
    {
      interest := map[];
    }

    /** The channel's flag tells whether it is registered. */
    ghost predicate Agrees(ch: Channel)
      reads this, ch
    {
      ch.inEpoll <==> ch.fd in interest && interest[ch.fd].channel == ch
    }

    /** No other channel is registered under the descriptor. */
    ghost predicate Unshared(ch: Channel)
      reads this
    {
      ch.fd in interest ==> interest[ch.fd].channel == ch
    }

    /** All channels in use agree, and nothing else is registered. */
    ghost predicate Sound(channels: set<Channel>)
      reads this, channels
    {
      && (forall ch :: ch in channels ==> Agrees(ch))
      && (forall fd :: fd in interest ==> interest[fd].channel in channels && interest[fd].channel.fd == fd)
    }

    /** EPOLL_CTL_ADD: refused when the descriptor is registered already. */
    method Add(fd: int, reg: Registration) returns (ok: bool)
      modifies this
      ensures ok <==> fd !in old(interest)
      ensures interest == if ok then old(interest)[fd := reg] else old(interest)
    {
      ok := fd !in interest;
      if ok {
        interest := interest[fd := reg];
      }
    }

    /** EPOLL_CTL_MOD: refused when it is not. */
    method Modify(fd: int, reg: Registration) returns (ok: bool)
      modifies this
      ensures ok <==> fd in old(interest)
      ensures interest == if ok then old(interest)[fd := reg] else old(interest)
    {
      ok := fd in interest;
      if ok {
        interest := interest[fd := reg];
      }
    }

    /** The flag is set whatever the kernel says, so it stays right exactly when no other channel is in the way;
        and then the kernel has the channel's present events. */
    method UpdateChannel(ch: Channel, ghost channels: set<Channel>)
      requires ch in channels && Sound(channels)
      modifies this, ch`inEpoll
      ensures Sound(channels) <==> old(Unshared(ch))
      ensures ch.inEpoll
      ensures interest ==
        if old(Unshared(ch)) then old(interest)[ch.fd := Registration(ch, ch.listenEvents)] else old(interest)
    {
      var reg := Registration(ch, ch.listenEvents);
      if !ch.inEpoll {
        var _ := Add(ch.fd, reg);
        ch.inEpoll := true;
      } else {
        var _ := Modify(ch.fd, reg);
      }
      if old(Unshared(ch)) {
        forall c | c in channels ensures Agrees(c) {
          assert old(Agrees(c));
        }
      } else {
        assert !Agrees(ch);
      }
    }

    /** The kernel removes by descriptor, so the others stay right exactly when none of them is registered under
        this one. */
    method DeleteChannel(ch: Channel, ghost channels: set<Channel>)
      requires ch in channels && Sound(channels)
      modifies this, ch`inEpoll
      ensures Sound(channels) <==> old(Unshared(ch))
      ensures !ch.inEpoll && interest == old(interest) - {ch.fd}
    {
      interest := interest - {ch.fd};
      ch.inEpoll := false;
      if old(Unshared(ch)) {
        forall c | c in channels ensures Agrees(c) {
          assert old(Agrees(c));
        }
      } else {
        ghost var other := old(interest[ch.fd].channel);
        assert old(Agrees(other)) && !Agrees(other);
      }
    }

    /** `events` is what the kernel reports, each registered channel once. */
    method Poll(events: seq<Registration>) returns (active: seq<Channel>)
      requires |events| <= MAX_EVENTS
      requires forall i, j :: 0 <= i < j < |events| ==> events[i].channel != events[j].channel
      modifies set i | 0 <= i < |events| :: events[i].channel`readyEvents
      ensures |active| == |events|
      ensures forall i :: 0 <= i < |active| ==>
        active[i] == events[i].channel && active[i].readyEvents == events[i].events
    {
      active := [];
      for i := 0 to |events|
        invariant |active| == i
        invariant forall k :: 0 <= k < i ==> active[k] == events[k].channel && active[k].readyEvents == events[k].events
      {
        var ch := events[i].channel;
        ch.readyEvents := events[i].events;
        active := active + [ch];
      }
    }
  }
}
