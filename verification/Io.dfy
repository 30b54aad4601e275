/** The operating system as the two ends see it: a script of call outcomes, and a log of what was sent. */
module Io {
  import opened Types
  import opened Wire

  type IoStatus = st: Status | IsIoFault(st) witness TIMEOUT

  /**
   * The outcome of one call: a failure status, or success with whatever the call delivers. A call that
   * pulls a control packet uses `packet`, one that receives a datagram uses `dgram`, creating the file uses `flag`.
   */
  datatype Event =
    | Fault(st: IoStatus)
    | Ok(packet: Packet, dgram: seq<byte>, flag: bool)

  datatype Out = Control(packet: Packet) | Datagram(bytes: seq<byte>)

  /** The outcome of call number `at`; past the end of the script the peer stays silent and every call times out. */
  function EventAt(script: seq<Event>, at: nat): Event {
    if at < |script| then script[at] else Fault(TIMEOUT)
  }

  class Kernel {
    const script: seq<Event>
    var at: nat
    var log: seq<Out>

    constructor (script: seq<Event>)
      ensures this.script == script && at == 0 && log == []
    {
      this.script, at, log := script, 0, [];
    }

    /** The outcome of the next call. */
    method Next() returns (e: Event)
      modifies this`at
      ensures e == EventAt(script, old(at)) && at == old(at) + 1
    {
      e := EventAt(script, at);
      at := at + 1;
    }

    /** A call that sends: the bytes leave only when it succeeds. */
    method Push(out: Out) returns (st: Status)
      modifies this
      ensures at == old(at) + 1
      ensures EventAt(script, old(at)).Fault? ==> st == EventAt(script, old(at)).st && log == old(log)
      ensures EventAt(script, old(at)).Ok? ==> st == SUCCESS && log == old(log) + [out]
    {
      var e := Next();
      if e.Fault? { return e.st; }
      log := log + [out];
      return SUCCESS;
    }
  }
}
