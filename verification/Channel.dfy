/** The part of a Channel that pollers use. */
module Channels {
  class Channel {
    const fd: int
    var events: int
    var revents: int
    var index: int   // the poller's own: -1 for a channel no poller has seen

    constructor (fd: int)
      ensures this.fd == fd && events == 0 && revents == 0 && index == -1
    {
      this.fd := fd;
      events, revents, index := 0, 0, -1;
    }
  }
}
