/**
 * The duplex message channel a connection owns. It is a collaborator, not part of the
 * dispatch core: it stands here only as the queue of already-received messages, the log of
 * messages it accepted for sending, the serial it last assigned, and whether it currently
 * accepts messages (a send fails exactly when it does not).
 */
module Transport {
  import opened Wrappers

  class Channel<M> {
    var inbound: seq<M>
    var outbound: seq<M>
    var lastSerial: nat
    var accepting: bool

    constructor (accepting: bool)
      ensures inbound == [] && outbound == [] && lastSerial == 0
      ensures this.accepting == accepting
    {
      inbound := [];
      outbound := [];
      lastSerial := 0;
      this.accepting := accepting;
    }

    /** Messages arriving from the peer; what a read/write pump leaves behind. */
    method Receive(arrived: seq<M>)
      modifies this`inbound
      ensures inbound == old(inbound) + arrived
    {
      inbound := inbound + arrived;
    }

    /** Sends `msg`; on success the message gets the next serial, which is returned. */
    method Send(msg: M) returns (r: Result<nat, ()>)
      modifies this`outbound, this`lastSerial
      ensures old(accepting) ==> r == Ok(old(lastSerial) + 1) && lastSerial == old(lastSerial) + 1
      ensures old(accepting) ==> outbound == old(outbound) + [msg]
      ensures !old(accepting) ==> r == Err(()) && lastSerial == old(lastSerial) && outbound == old(outbound)
    {
      if accepting {
        lastSerial := lastSerial + 1;
        outbound := outbound + [msg];
        r := Ok(lastSerial);
      } else {
        r := Err(());
      }
    }

    /** Takes the oldest buffered inbound message, if any; never waits. */
    method PopMessage() returns (m: Option<M>)
      modifies this`inbound
      ensures old(inbound) == [] ==> m == None && inbound == []
      ensures old(inbound) != [] ==> m == Some(old(inbound)[0]) && inbound == old(inbound)[1..]
    {
      if inbound == [] {
        m := None;
      } else {
        m := Some(inbound[0]);
        inbound := inbound[1..];
      }
    }
  }
}
