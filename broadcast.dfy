/** The live-update fan-out: the set of connected viewer channels and the broadcast that sends each
    message to all of them, dropping the channels whose send failed once the pass is over. */
module Broadcast {
  import opened Domain

  /** One viewer's websocket. `open` says whether `send_json` goes through; a closed or broken
      connection raises instead. `received` is what the viewer has been sent. */
  class Channel {
    var open: bool
    var received: seq<Event>

    constructor (open: bool)
      ensures this.open == open && received == []
    {
      this.open := open;
      received := [];
    }

    /** `send_json`: `ok` is false exactly when the send raises, and then nothing is delivered. */
    method Send(m: Event) returns (ok: bool)
      modifies this`received
      ensures ok == open
      ensures received == if open then old(received) + [m] else old(received)
    {
      ok := open;
      if open {
        received := received + [m];
      }
    }
  }

  /** The channels a broadcast drops: those among `cs` whose send fails. */
  ghost function Broken(cs: set<Channel>): set<Channel>
    reads cs
  {
    set c | c in cs && !c.open
  }

  class ConnectionManager {
    var active: set<Channel>

    constructor ()
      ensures active == {}
    {
      active := {};
    }

    /** `connect`, once the handshake has been accepted. */
    method Connect(c: Channel)
      modifies this
      ensures active == old(active) + {c}
    {
      active := active + {c};
    }

    /** `disconnect` is `discard`: removing a channel that is not registered changes nothing. */
    method Disconnect(c: Channel)
      modifies this
      ensures active == old(active) - {c}
      ensures c !in old(active) ==> active == old(active)
    {
      active := active - {c};
    }

    /** `broadcast`: every registered channel is sent the message, in the set's (arbitrary) order;
        a failing send neither stops the pass nor escapes it. Afterwards the registered channels are
        the ones before minus exactly those whose send failed, so all that remain are open, and
        every open channel got the message once. No channel outside the set is touched. */
    method Broadcast(m: Event)
      modifies this, active
      ensures active == old(active) - Broken(old(active))
      ensures forall c :: c in active ==> c.open
      ensures forall c :: c in old(active) ==> c.open == old(c.open)
      ensures forall c :: c in old(active) ==>
                c.received == if c.open then old(c.received) + [m] else old(c.received)
    {
      var pending := active;
      var dead: set<Channel> := {};
      ghost var visited: set<Channel> := {};
      while pending != {}
        invariant pending + visited == old(active) && pending !! visited
        invariant active == old(active)
        invariant dead == Broken(visited)
        invariant forall c :: c in old(active) ==> c.open == old(c.open)
        invariant forall c :: c in visited ==>
                    c.received == if c.open then old(c.received) + [m] else old(c.received)
        invariant forall c :: c in pending ==> c.received == old(c.received)
        decreases pending
      {
        var c :| c in pending;
        var ok := c.Send(m);
        if !ok {
          dead := dead + {c};
        }
        pending := pending - {c};
        visited := visited + {c};
      }
      active := active - dead;
    }
  }
}
