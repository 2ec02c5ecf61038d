/** `Logger`: a generated client function, from its arguments to `send`. */
module Loggers {
  import opened Bytes
  import opened ClientRuntime
  import opened CodeGen
  import opened Frames
  import opened PosixIOs
  import opened Schema
  import PosixQueue

  class Logger {
    const generated: CppCodeGen
    const iio: PosixIO

    constructor (generated: CppCodeGen, iio: PosixIO)
      ensures this.generated == generated && this.iio == iio
    {
      this.generated, this.iio := generated, iio;
    }

    /** A call of the function generated for `e` is one `send` of a buffer with the event's encoding; if it is accepted, the
        frame the queue takes on is the one the server parses. */
    method LogEvent(e: Event)
      requires WellFormed(ValidFuncs(generated.funcs)) && IsEvent(ValidFuncs(generated.funcs), e)
      requires generated.enumNames == CppEnum(ValidFuncs(generated.funcs))
      requires generated.apis == ApisOf(ValidFuncs(generated.funcs))
      requires iio.Inv() && Fits(e)
      modifies iio, iio.socket
      ensures iio.Inv()
      ensures iio.Abs() == PosixQueue.Send(old(iio.Abs()), HEADER + Body(e), old(iio.socket.Next()))
      ensures iio.accepted == old(iio.accepted) +
                              if PosixQueue.Refuses(old(iio.Abs()), HEADER + Body(e)) then [] else [Frame(Body(e))]
    {
      hide PosixQueue.Valid, PosixQueue.Send, PosixQueue.Stamp, Body, WellFormedFunc, Frame, PosixQueue.Refuses;
      var buffer := LogCall(generated, e);
      ghost var before := iio.Abs();
      PosixQueue.HeadUnfinished(before);
      PosixQueue.SendGrows(before, HEADER + Body(e), iio.socket.Next());
      StampIsFrame(Body(e));
      var returned := iio.Send(buffer);
    }
  }

  /** What `send` makes of a client function's buffer is the frame of its body. */
  lemma StampIsFrame(body: Packet)
    ensures PosixQueue.Stamp(HEADER + body) == Frame(body)
  {
    assert (HEADER + body)[4..] == body;
  }
}
