/**
 The local TCP connection behind a tunnel (source/tunneling/TcpForward.cpp).

 `Forward` holds what `mLifecycleLock` guards; the functions are the critical sections and the class `TcpForward`
 runs them on mutable fields.
 */
module TcpForward {
  import opened ByteType
  import opened Options

  const MAX_SEND_BUFFER_SIZE: nat := 63 * 1024

  datatype Forward = Forward(
    socketInitialized: bool,
    sendBufferInitialized: bool,
    hasEventLoop: bool,
    keepAlive: bool,
    connectStarted: bool,
    connected: bool,
    stopRequested: bool,
    stopped: bool,
    buffer: seq<Byte>)

  function Fresh(socketReady: bool, bufferReady: bool): Forward {
    Forward(socketReady, socketReady && bufferReady, false, false, false, false, false, false, [])
  }

  predicate Running(f: Forward) {
    !f.stopRequested && !f.stopped
  }

  /** `loop` is whether an event loop is available, `submitted` whether the socket takes the connect. */
  function ConnectSection(f: Forward, loop: bool, submitted: bool): (Forward, bool) {
    if !f.socketInitialized || !f.sendBufferInitialized || f.connectStarted || !Running(f) then
      (f, false)
    else if !loop then
      (f.(hasEventLoop := false), false)
    else if submitted then
      (f.(hasEventLoop := true, connectStarted := true, keepAlive := true), true)
    else
      (f.(hasEventLoop := false, connectStarted := true, keepAlive := false), false)
  }

  function RequestStopSection(f: Forward): (Forward, bool) {
    if !Running(f) then (f, false) else (f.(stopRequested := true, keepAlive := true), true)
  }

  /** What the thread that stops the forward cleans up after it has left the lock. */
  datatype CleanUp = CleanUp(first: bool, socket: bool, sendBuffer: bool)

  function StopSection(f: Forward): (Forward, CleanUp) {
    if f.stopped then
      (f, CleanUp(false, false, false))
    else
      (f.(socketInitialized := false, sendBufferInitialized := false, connected := false, stopped := true,
          keepAlive := false, buffer := []),
       CleanUp(true, f.socketInitialized, f.sendBufferInitialized))
  }

  datatype Sent = Refused | TooLong | AppendFailed | Buffered | Written | WriteFailed

  /** `appends` and `writes` are the answers of the allocator and the socket, if they are asked. */
  function SendSection(f: Forward, data: seq<Byte>, appends: bool, writes: bool): (Forward, Sent) {
    if !Running(f) then
      (f, Refused)
    else if !f.connected then
      if |f.buffer| + |data| > MAX_SEND_BUFFER_SIZE then (f, TooLong)
      else if !appends then (f, AppendFailed)
      else (f.(buffer := f.buffer + data), Buffered)
    else if data == [] || writes then
      (f, Written)
    else
      (f, WriteFailed)
  }

  datatype Flushed = NothingToDo | Flushed | FlushFailed

  function FlushSection(f: Forward, writes: bool): (Forward, Flushed) {
    if !Running(f) || !f.connected || f.buffer == [] then (f, NothingToDo)
    else if writes then (f.(buffer := []), Flushed)
    else (f, FlushFailed)
  }

  // ---------------------------------------------------------------- reading from the socket

  const SOCKET_CLOSED := 1
  const READ_WOULD_BLOCK := 2
  const APPEND_ERROR := 3

  /** One answer of the socket; `appends` tells whether the bytes could be added to what was read before. */
  datatype Read = Chunk(bytes: seq<Byte>, appends: bool) | Fails(error: int)

  /** All bytes of one readable event, in order, and the error that ends the connection, if any. */
  function Drain(answers: seq<Read>): (seq<Byte>, Option<int>) {
    if answers == [] then
      ([], None)
    else match answers[0]
      case Fails(error) => ([], if error == READ_WOULD_BLOCK then None else Some(error))
      case Chunk(bytes, appends) =>
        if bytes == [] then ([], None)
        else if !appends then ([], Some(APPEND_ERROR))
        else var (more, end) := Drain(answers[1..]); (bytes + more, end)
  }

  function Flatten(chunks: seq<seq<Byte>>): seq<Byte> {
    if chunks == [] then [] else chunks[0] + Flatten(chunks[1..])
  }

  function Chunks(chunks: seq<seq<Byte>>): (answers: seq<Read>)
    ensures |answers| == |chunks|
  {
    if chunks == [] then [] else [Chunk(chunks[0], true)] + Chunks(chunks[1..])
  }

  /** An answer after which nothing more is read: an error, a failed append, or no bytes at all. */
  predicate StopsReading(last: Read) {
    last.Chunk? && last.appends ==> last.bytes == []
  }

  function ReasonOf(last: Read): Option<int> {
    match last
    case Fails(error) => if error == READ_WOULD_BLOCK then None else Some(error)
    case Chunk(bytes, _) => if bytes == [] then None else Some(APPEND_ERROR)
  }

  /** Everything that was read before the end is drained, whatever ends it and whatever follows. */
  lemma {:induction false} DrainKeepsEverything(chunks: seq<seq<Byte>>, last: Read, rest: seq<Read>)
    requires (forall i :: 0 <= i < |chunks| ==> chunks[i] != []) && StopsReading(last)
    ensures Drain(Chunks(chunks) + [last] + rest) == (Flatten(chunks), ReasonOf(last))
  {
    var answers := Chunks(chunks) + [last] + rest;
    if chunks == [] {
      assert answers[0] == last;
    } else {
      assert answers[0] == Chunk(chunks[0], true);
      assert answers[1..] == Chunks(chunks[1..]) + [last] + rest;
      DrainKeepsEverything(chunks[1..], last, rest);
    }
  }

  datatype Event = Delivered(bytes: seq<Byte>) | Terminated(error: int)

  /** What the owner hears in one readable event of a forward in state `f`. */
  function Heard(f: Forward, errorCode: int, answers: seq<Read>): seq<Event> {
    if errorCode != 0 && errorCode != SOCKET_CLOSED then
      Ending(f, errorCode)
    else
      var (bytes, end) := Drain(answers);
      (if bytes == [] then [] else [Delivered(bytes)]) +
      (match end
       case Some(error) => Ending(f, error)
       case None => if errorCode == SOCKET_CLOSED then Ending(f, SOCKET_CLOSED) else [])
  }

  function Ending(f: Forward, error: int): seq<Event> {
    if Running(f) then [Terminated(error)] else []
  }

  /** On a running forward a peer close, or an error read, comes after the bytes read before it and is reported. */
  lemma HeardAtEnd(f: Forward, errorCode: int, chunks: seq<seq<Byte>>, last: Read)
    requires !f.stopRequested && !f.stopped && (errorCode == 0 || errorCode == SOCKET_CLOSED)
    requires (forall i :: 0 <= i < |chunks| ==> chunks[i] != []) && StopsReading(last)
    ensures var bytes := Flatten(chunks);
            Heard(f, errorCode, Chunks(chunks) + [last]) ==
            (if bytes == [] then [] else [Delivered(bytes)]) +
            (if last.Fails? && last.error != READ_WOULD_BLOCK then [Terminated(last.error)]
             else if last.Chunk? && last.bytes != [] then [Terminated(APPEND_ERROR)]
             else if errorCode == SOCKET_CLOSED then [Terminated(SOCKET_CLOSED)]
             else [])
  {
    DrainKeepsEverything(chunks, last, []);
    assert Chunks(chunks) + [last] + [] == Chunks(chunks) + [last];
  }

  class TcpForward {
    var mSocketInitialized: bool
    var mSendBufferInitialized: bool
    var mEventLoop: bool
    var mLifetimeKeepAlive: bool
    var mConnectStarted: bool
    var mConnected: bool
    var mStopRequested: bool
    var mStopped: bool
    var mSendBuffer: seq<Byte>
    ghost var heard: seq<Event>    // what the owner has been told
    ghost var socket: seq<Byte>    // what has been written to the socket

    ghost function View(): Forward
      reads this
    {
      Forward(mSocketInitialized, mSendBufferInitialized, mEventLoop, mLifetimeKeepAlive, mConnectStarted,
              mConnected, mStopRequested, mStopped, mSendBuffer)
    }

    constructor (socketReady: bool, bufferReady: bool)
      ensures View() == Fresh(socketReady, bufferReady) && heard == [] && socket == []
    {
      mSocketInitialized, mSendBufferInitialized := socketReady, socketReady && bufferReady;
      mEventLoop, mLifetimeKeepAlive, mConnectStarted, mConnected := false, false, false, false;
      mStopRequested, mStopped, mSendBuffer := false, false, [];
      heard, socket := [], [];
    }

    method Connect(loop: bool, submitted: bool) returns (success: bool)
      modifies this
      ensures (View(), success) == ConnectSection(old(View()), loop, submitted)
      ensures success <==> mSocketInitialized && mSendBufferInitialized && !old(mConnectStarted) &&
                           !mStopRequested && !mStopped && loop && submitted
      ensures success ==> View() == old(View()).(hasEventLoop := true, connectStarted := true, keepAlive := true)
      ensures heard == old(heard) && socket == old(socket)
    {
      if !mSocketInitialized || !mSendBufferInitialized || mConnectStarted || mStopRequested || mStopped {
        return false;
      }
      mEventLoop := loop;
      if !mEventLoop {
        return false;
      }
      mConnectStarted := true;
      mLifetimeKeepAlive := true;
      if !submitted {
        mEventLoop := false;
        mLifetimeKeepAlive := false;
      }
      return submitted;
    }

    method RequestStop() returns (won: bool)
      modifies this
      ensures (View(), won) == RequestStopSection(old(View()))
      ensures won <==> !old(mStopRequested) && !mStopped
      ensures mStopRequested || mStopped
      ensures won ==> mLifetimeKeepAlive && View() == old(View()).(stopRequested := true, keepAlive := true)
      ensures heard == old(heard) && socket == old(socket)
    {
      if mStopRequested || mStopped {
        return false;
      }
      mStopRequested := true;
      if !mLifetimeKeepAlive {
        mLifetimeKeepAlive := true;
      }
      return true;
    }

    method StopOnEventLoop(notifyOwner: bool, errorCode: int) returns (cleanUp: CleanUp)
      modifies this
      ensures (View(), cleanUp) == StopSection(old(View()))
      ensures mStopped && (cleanUp.first <==> !old(mStopped))
      ensures cleanUp.first ==>
                && (cleanUp.socket <==> old(mSocketInitialized))
                && (cleanUp.sendBuffer <==> old(mSendBufferInitialized))
                && !mSocketInitialized && !mSendBufferInitialized && !mConnected && mSendBuffer == []
      ensures heard == old(heard) + (if cleanUp.first && notifyOwner then [Terminated(errorCode)] else [])
      ensures socket == old(socket)
    {
      if mStopped {
        return CleanUp(false, false, false);
      }
      cleanUp := CleanUp(true, mSocketInitialized, mSendBufferInitialized);
      mSocketInitialized := false;
      mSendBufferInitialized := false;
      mConnected := false;
      mStopped := true;
      mLifetimeKeepAlive := false;
      mSendBuffer := [];
      if notifyOwner {
        heard := heard + [Terminated(errorCode)];
      }
    }

    /** StopAfterError as the event loop itself runs it. */
    method StopAfterError(errorCode: int)
      modifies this
      ensures View() == if Running(old(View())) then StopSection(RequestStopSection(old(View())).0).0 else old(View())
      ensures heard == old(heard) + Ending(old(View()), errorCode)
      ensures socket == old(socket)
    {
      var won := RequestStop();
      if won {
        var cleanUp := StopOnEventLoop(true, errorCode);
      }
    }

    method SendData(data: seq<Byte>, appends: bool, writes: bool) returns (sent: Sent)
      modifies this
      ensures (View(), sent) == SendSection(old(View()), data, appends, writes)
      ensures sent.Refused? <==> mStopRequested || mStopped
      ensures sent.Written? <==> !mStopRequested && !mStopped && mConnected && (data == [] || writes)
      ensures sent.Buffered? <==>
              !mStopRequested && !mStopped && !mConnected && appends &&
              |old(mSendBuffer)| + |data| <= MAX_SEND_BUFFER_SIZE
      ensures mSendBuffer == if sent.Buffered? then old(mSendBuffer) + data else old(mSendBuffer)
      ensures socket == old(socket) + (if sent.Written? then data else [])
      ensures heard == old(heard)
    {
      if mStopRequested || mStopped {
        return Refused;
      }
      if !mConnected {
        if |mSendBuffer| > MAX_SEND_BUFFER_SIZE || |data| > MAX_SEND_BUFFER_SIZE - |mSendBuffer| {
          return TooLong;
        }
        if !appends {
          return AppendFailed;
        }
        mSendBuffer := mSendBuffer + data;
        return Buffered;
      }
      var queued := QueueWrite(data, writes);
      return if queued then Written else WriteFailed;
    }

    method QueueWrite(data: seq<Byte>, writes: bool) returns (queued: bool)
      modifies this`socket
      ensures queued == (data == [] || writes)
      ensures socket == old(socket) + (if queued then data else [])
    {
      if |data| == 0 {
        return true;
      }
      if writes {
        socket := socket + data;
      }
      return writes;
    }

    method FlushSendBuffer(writes: bool) returns (flushed: Flushed)
      modifies this
      ensures (View(), flushed) == FlushSection(old(View()), writes)
      ensures flushed.NothingToDo? <==> mStopRequested || mStopped || !mConnected || old(mSendBuffer) == []
      ensures flushed.FlushFailed? <==> !flushed.NothingToDo? && !writes
      ensures mSendBuffer == if flushed.Flushed? then [] else old(mSendBuffer)
      ensures socket == old(socket) + (if flushed.Flushed? then old(mSendBuffer) else [])
      ensures heard == old(heard)
    {
      if mStopRequested || mStopped || !mConnected || |mSendBuffer| == 0 {
        return NothingToDo;
      }
      var queued := QueueWrite(mSendBuffer, writes);
      if queued {
        mSendBuffer := [];
        return Flushed.Flushed;
      }
      return FlushFailed;
    }

    /** `answers` lists the answers of the socket, which has nothing more to give after the last. */
    method OnReadable(errorCode: int, answers: seq<Read>)
      modifies this
      ensures heard == old(heard) + Heard(old(View()), errorCode, answers)
      ensures socket == old(socket)
    {
      if errorCode != 0 && errorCode != SOCKET_CLOSED {
        StopAfterError(errorCode);
        return;
      }
      var terminal, terminalError := errorCode == SOCKET_CLOSED, errorCode;
      var everything, end := ReadAll(answers);
      if end.Some? {
        terminal, terminalError := true, end.value;
      }
      if |everything| > 0 {
        heard := heard + [Delivered(everything)];
      }
      if terminal {
        StopAfterError(terminalError);
      }
    }

    /** The read loop: it ends at an error, at a failed append, or when nothing more can be read. */
    method ReadAll(answers: seq<Read>) returns (everything: seq<Byte>, end: Option<int>)
      ensures (everything, end) == Drain(answers)
    {
      everything, end := [], None;
      var i, more := 0, true;
      assert answers[0..] == answers;
      while more
        invariant 0 <= i <= |answers| && (more ==> end == None)
        invariant Drain(answers).0 == if more then everything + Drain(answers[i..]).0 else everything
        invariant Drain(answers).1 == if more then Drain(answers[i..]).1 else end
        decreases more, |answers| - i
      {
        var answer := if i < |answers| then answers[i] else Fails(READ_WOULD_BLOCK);
        if i < |answers| {
          assert answers[i..][0] == answer && answers[i..][1..] == answers[i + 1..];
          i := i + 1;
        }
        match answer
        case Chunk(bytes, appends) =>
          if |bytes| > 0 && appends {
            assert everything + (bytes + Drain(answers[i..]).0) == everything + bytes + Drain(answers[i..]).0;
            everything := everything + bytes;
          } else {
            if |bytes| > 0 {
              end := Some(APPEND_ERROR);
            }
            more := false;
          }
        case Fails(error) =>
          if error != READ_WOULD_BLOCK {
            end := Some(error);
          }
          more := false;
      }
    }
  }
}
