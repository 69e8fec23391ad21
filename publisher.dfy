// The two-frame ZMQ publisher of the raw-tick programs.  The socket and
// its context are reduced to whether they exist; what the socket is handed
// is recorded as a sequence of frames.  Every outcome of the library calls
// (an exception, or a send the socket does not queue) is an input.
module Publisher {

  const DefaultAddress: string := "tcp://127.0.0.1:8888"

  /** Which library call of `connect` throws, if any. */
  datatype ConnectFault = NoFault | ContextThrows | SocketThrows | OptionThrows | BindThrows

  /**
   * What one `socket->send` does: the frame is queued, it is not queued
   * (the call returns without throwing and the result is ignored), or the
   * call throws.
   */
  datatype FrameOutcome = Queued | NotQueued | Throws

  /** The outcomes of the two sends of one `publishMessage`. */
  datatype SendAttempt = SendAttempt(first: FrameOutcome, second: FrameOutcome)

  /** A frame handed to the socket; `more` is the `sndmore` flag. */
  datatype Frame = Frame(data: string, more: bool)

  function Delivered(f: Frame, o: FrameOutcome): (r: seq<Frame>)
    ensures o == Queued ==> r == [f]
    ensures o != Queued ==> r == []
  {
    if o == Queued then [f] else []
  }

  /**
   * Whether `publishMessage` returns true: the publisher is ready and
   * neither send throws.  Whether a frame was queued plays no part.
   */
  predicate PublishOk(ready: bool, a: SendAttempt)
  {
    ready && a.first != Throws && a.second != Throws
  }

  /**
   * The frames one `publishMessage` hands to the socket: nothing unless the
   * publisher is ready; the type frame (flagged `sndmore`) unless the first
   * send throws; the content frame only when the first send did not throw.
   */
  function PublishFrames(ready: bool, messageType: string, content: string, a: SendAttempt): (r: seq<Frame>)
    ensures !ready || a.first == Throws ==> r == []
    ensures ready && a == SendAttempt(Queued, Queued) ==> r == [Frame(messageType, true), Frame(content, false)]
    ensures |r| <= 2
    ensures forall i :: 0 <= i < |r| ==> r[i] == Frame(messageType, true) || r[i] == Frame(content, false)
    ensures |r| == 2 ==> r[0].more && !r[1].more
  {
    if !ready || a.first == Throws then []
    else Delivered(Frame(messageType, true), a.first) + Delivered(Frame(content, false), a.second)
  }

  /** The type frame always goes out first and carries `sndmore`; the content frame never does. */
  lemma FramesInOrder(ready: bool, messageType: string, content: string, a: SendAttempt)
    requires PublishFrames(ready, messageType, content, a) != []
    ensures PublishFrames(ready, messageType, content, a)[0].more <==> a.first == Queued
    ensures PublishOk(ready, a) || a.second == Throws
  {
  }

  class ZmqPublisher {
    var address: string
    var initialized: bool
    var hasContext: bool
    var hasSocket: bool
    var wire: seq<Frame>

    ghost predicate Valid()
      reads this
    {
      initialized ==> hasContext && hasSocket
    }

    /** A fresh publisher is not initialised and owns no socket. */
    constructor (addr: string)
      ensures Valid() && address == addr
      ensures !initialized && !hasContext && !hasSocket && wire == []
    {
      address := addr;
      initialized := false;
      hasContext := false;
      hasSocket := false;
      wire := [];
    }

    predicate IsConnected()
      reads this
    {
      initialized
    }

    /**
     * `connect`: context, socket, linger option and bind, in that order;
     * `initialized` becomes true only when none of them throws, and false
     * on any exception.  A member assigned before the failing call stays.
     */
    method Connect(fault: ConnectFault) returns (ok: bool)
      requires Valid()
      modifies this
      ensures Valid()
      ensures ok <==> fault == NoFault
      ensures initialized == ok
      ensures hasContext == (fault != ContextThrows || old(hasContext))
      ensures hasSocket == (fault == NoFault || fault == OptionThrows || fault == BindThrows
                            || old(hasSocket))
      ensures address == old(address) && wire == old(wire)
    {
      if fault == ContextThrows {
        initialized := false;
        return false;
      }
      hasContext := true;
      if fault == SocketThrows {
        initialized := false;
        return false;
      }
      hasSocket := true;
      if fault == OptionThrows || fault == BindThrows {
        initialized := false;
        return false;
      }
      initialized := true;
      ok := true;
    }

    /**
     * `publishMessage`: false with nothing sent unless initialised with a
     * socket; otherwise the type frame with `sndmore`, then the content
     * frame; true exactly when neither send throws.
     */
    method PublishMessage(messageType: string, content: string, a: SendAttempt) returns (ok: bool)
      requires Valid()
      modifies this`wire
      ensures ok == PublishOk(initialized && hasSocket, a)
      ensures wire == old(wire) + PublishFrames(initialized && hasSocket, messageType, content, a)
    {
      if !initialized || !hasSocket {
        return false;
      }
      if a.first == Throws {
        return false;
      }
      wire := wire + Delivered(Frame(messageType, true), a.first);
      if a.second == Throws {
        return false;
      }
      wire := wire + Delivered(Frame(content, false), a.second);
      ok := true;
    }

    /** `disconnect`: socket and context are released and the publisher is no longer initialised. */
    method Disconnect()
      modifies this
      ensures Valid()
      ensures !initialized && !hasSocket && !hasContext
      ensures address == old(address) && wire == old(wire)
    {
      hasSocket := false;
      hasContext := false;
      initialized := false;
    }
  }
}
