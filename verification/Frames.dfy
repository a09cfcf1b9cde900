/** Frame identity and the one-shot conversion flag of a rendered frame. */
module Frames {

  datatype Eye = Left | Right {
    function Other(): Eye {
      if this == Left then Right else Left
    }
  }

  /** A request number handed to a client: the eye it asks for and that eye's counter value. */
  datatype Ticket = Ticket(eye: Eye, number: nat)

  /** A frame as a value. `ticket` is the request it answers; `index` and `eye` are what the
      renderer wrote into its reply, which need not agree with the ticket. */
  datatype Frame = Frame(ticket: Ticket, index: nat, eye: Eye, converted: bool) {
    predicate Echoes() {
      ticket == Ticket(eye, index)
    }
  }

  /** Why a frame (or the request for it) left the pipeline without being submitted. */
  datatype Cause = SocketFailure | QueueTimeout | MapTimeout | DuplicateKey | Purged

  function MarkAll(s: seq<Frame>): (r: seq<Frame>)
    ensures |r| == |s|
    ensures forall i :: 0 <= i < |s| ==> r[i] == s[i].(converted := true)
  {
    seq(|s|, i requires 0 <= i < |s| => s[i].(converted := true))
  }

  /** Conversion of a frame, and whether it threw because the frame was converted before. */
  function ConvertStep(f: Frame): (Frame, bool) {
    if f.converted then (f, true) else (f.(converted := true), false)
  }

  /** The owned frame object: `ConvertFrame` refuses to run twice. */
  class RenderedFrame {
    const ticket: Ticket
    const index: nat
    const eye: Eye
    var converted: bool

    constructor (ticket: Ticket, index: nat, eye: Eye)
      ensures Value() == Frame(ticket, index, eye, false)
    {
      this.ticket, this.index, this.eye := ticket, index, eye;
      this.converted := false;
    }

    function Value(): Frame
      reads this
    {
      Frame(ticket, index, eye, converted)
    }

    method ConvertFrame() returns (threw: bool)
      modifies this
      ensures (Value(), threw) == ConvertStep(old(Value()))
      ensures converted && (threw <==> old(converted))
    {
      if converted {
        return true;
      }
      converted := true;
      return false;
    }
  }
}
