/**
 The read buffer of a sensor (source/sensor-publish/Sensor.cpp): bytes are appended to a fixed array, the position
 one past each end-of-message delimiter is queued, and whole messages are published in batches.

 The delimiter is a single byte.  The clock is an input: `timedOut` says whether the publish timeout has passed.
 */
module Sensor {

  import opened ByteType

  /** What is handed to the MQTT client: `length` is what the cursor claims, `bytes` the part inside the buffer. */
  datatype Message = Message(bytes: seq<Byte>, length: nat)

  datatype Event = Published(message: Message) | Discarded(bytes: seq<Byte>)

  datatype View = View(memory: seq<Byte>, len: nat, bounds: seq<nat>) {
    function Content(): seq<Byte>
      requires len <= |memory|
    {
      memory[..len]
    }
  }

  function Min(a: nat, b: nat): nat {
    if a <= b then a else b
  }

  predicate Inside(bounds: seq<nat>, len: nat) {
    forall i :: 0 <= i < |bounds| ==> 0 < bounds[i] <= len
  }

  predicate WellFormed(v: View) {
    v.len <= |v.memory| && Inside(v.bounds, v.len)
  }

  // ---------------------------------------------------------------- the critical steps on values

  /** One past each delimiter at position `from` or later. */
  function Ends(s: seq<Byte>, delimiter: Byte, from: nat): seq<nat> {
    if |s| <= from then []
    else
      var n := |s| - 1;
      Ends(s[..n], delimiter, from) + if s[n] == delimiter then [|s|] else []
  }

  function Cursor(memory: seq<Byte>, start: nat, length: nat): Message {
    Message(if start + length <= |memory| then memory[start..start + length]
            else if start <= |memory| then memory[start..] else [], length)
  }

  /** How many of `n` queued messages are gone after `count` batches of up to `size` each. */
  function Popped(n: nat, size: nat, count: nat): (k: nat)
    ensures k <= n
    ensures size > 0 && count > 0 && n > 0 ==> k > 0
  {
    if count == 0 then 0 else Min(n, Popped(n, size, count - 1) + size)
  }

  /** Where the first `k` messages end. */
  function End(bounds: seq<nat>, k: nat): nat {
    if 0 < k <= |bounds| then bounds[k - 1] else 0
  }

  /** The cursor of a batch gets the end of the batch as its length. */
  function Batch(memory: seq<Byte>, bounds: seq<nat>, size: nat, i: nat): Message {
    Cursor(memory, End(bounds, Popped(|bounds|, size, i)), End(bounds, Popped(|bounds|, size, i + 1)))
  }

  function Batches(memory: seq<Byte>, bounds: seq<nat>, size: nat, count: nat): (messages: seq<Message>)
    ensures |messages| == count
    ensures forall i :: 0 <= i < count ==> messages[i] == Batch(memory, bounds, size, i)
  {
    if count == 0 then [] else Batches(memory, bounds, size, count - 1) + [Batch(memory, bounds, size, count - 1)]
  }

  /** What is left in the queue, where the last batch ended, and the messages so far, after `count` batches. */
  predicate AfterBatches(memory: seq<Byte>, queued: seq<nat>, size: nat, count: nat,
                         rest: seq<nat>, last: nat, messages: seq<Message>)
  {
    var k := Popped(|queued|, size, count);
    rest == queued[k..] && last == End(queued, k) && messages == Batches(memory, queued, size, count)
  }

  lemma OneMoreBatch(memory: seq<Byte>, queued: seq<nat>, size: nat, count: nat,
                     rest: seq<nat>, last: nat, messages: seq<Message>)
    requires AfterBatches(memory, queued, size, count, rest, last, messages)
    ensures var popped := Min(|rest|, size);
            var end := if popped == 0 then last else rest[popped - 1];
            AfterBatches(memory, queued, size, count + 1, rest[popped..], end, messages + [Cursor(memory, last, end)])
  {
    var k, next := Popped(|queued|, size, count), Popped(|queued|, size, count + 1);
    var popped := Min(|rest|, size);
    assert next == k + popped;
    assert queued[k..][popped..] == queued[next..];
  }

  function BatchSize(bufferSize: nat, queued: nat): nat {
    if bufferSize == 0 then queued else bufferSize
  }

  function BatchCount(v: View, bufferSize: nat, timedOut: bool): nat {
    var queued := |v.bounds|;
    if queued == 0 then 0
    else
      var whole := queued / BatchSize(bufferSize, queued);
      if whole < 1 && (timedOut || v.len == |v.memory|) then 1 else whole
  }

  /** Move the bytes from `last` on to the front. */
  function Compacted(v: View, last: nat): (r: View)
    requires last <= v.len <= |v.memory|
    ensures |r.memory| == |v.memory| && r.len <= |r.memory| && r.Content() == v.memory[last..v.len]
  {
    assert (v.memory[last..v.len] + v.memory[v.len - last..])[..v.len - last] == v.memory[last..v.len];
    View(v.memory[last..v.len] + v.memory[v.len - last..], v.len - last, [])
  }

  function Announced(messages: seq<Message>): (events: seq<Event>)
    ensures |events| == |messages|
  {
    seq(|messages|, i requires 0 <= i < |messages| => Published(messages[i]))
  }

  /** A full buffer without a delimiter is emptied. */
  function WithoutBatch(v: View): (r: (View, seq<Event>))
    requires WellFormed(v)
    ensures WellFormed(r.0) && |r.0.memory| == |v.memory|
  {
    if v.bounds == [] && v.len == |v.memory| then (v.(len := 0), [Discarded(v.memory)]) else (v, [])
  }

  /** The buffer is compacted only when no boundary is left. */
  function WithBatches(v: View, size: nat, count: nat): (r: (View, seq<Event>))
    requires WellFormed(v)
    ensures WellFormed(r.0) && |r.0.memory| == |v.memory|
  {
    var k := Popped(|v.bounds|, size, count);
    (if k == |v.bounds| then Compacted(v, End(v.bounds, k)) else v.(bounds := v.bounds[k..]),
     Announced(Batches(v.memory, v.bounds, size, count)))
  }

  function PublishSection(v: View, bufferSize: nat, timedOut: bool): (r: (View, seq<Event>))
    requires WellFormed(v)
    ensures WellFormed(r.0) && |r.0.memory| == |v.memory|
  {
    var count := BatchCount(v, bufferSize, timedOut);
    if count == 0 then WithoutBatch(v) else WithBatches(v, BatchSize(bufferSize, |v.bounds|), count)
  }

  /** What a read of the offered bytes takes: as many as there is room for. */
  function Accepted(v: View, offered: seq<Byte>): seq<Byte>
    requires v.len <= |v.memory|
  {
    offered[..Min(|offered|, |v.memory| - v.len)]
  }

  function Received(v: View, taken: seq<Byte>): (r: View)
    requires WellFormed(v) && |taken| <= |v.memory| - v.len
    ensures WellFormed(r) && r.Content() == v.Content() + taken
  {
    View(v.memory[..v.len] + taken + v.memory[v.len + |taken|..], v.len + |taken|, v.bounds)
  }

  /** The scan starts at the new bytes, or at the last delimiter known. */
  function ScanFrom(bounds: seq<nat>, startPos: nat): nat {
    if bounds == [] then startPos else bounds[|bounds| - 1]
  }

  function Scanned(v: View, delimiter: Byte, startPos: nat): (r: View)
    requires WellFormed(v)
    ensures WellFormed(r)
  {
    EndsInside(v.Content(), delimiter, ScanFrom(v.bounds, startPos));
    v.(bounds := v.bounds + Ends(v.Content(), delimiter, ScanFrom(v.bounds, startPos)))
  }

  function ReadSection(v: View, delimiter: Byte, offered: seq<Byte>): (r: View)
    requires WellFormed(v)
    ensures WellFormed(r)
  {
    Scanned(Received(v, Accepted(v, offered)), delimiter, v.len)
  }

  lemma {:induction false} EndsInside(s: seq<Byte>, delimiter: Byte, from: nat)
    ensures var ends := Ends(s, delimiter, from);
            Inside(ends, |s|) && forall i :: 0 <= i < |ends| ==> from < ends[i]
  {
    if |s| > from {
      EndsInside(s[..|s| - 1], delimiter, from);
    }
  }

  // ---------------------------------------------------------------- the scan

  /** The scan finds every delimiter from `from` on, once, in order. */
  lemma {:induction false} EndsExact(s: seq<Byte>, delimiter: Byte, from: nat)
    ensures var ends := Ends(s, delimiter, from);
            (forall p :: p in ends <==> from < p <= |s| && s[p - 1] == delimiter) &&
            (forall i, j :: 0 <= i < j < |ends| ==> ends[i] < ends[j])
  {
    if |s| > from {
      var n := |s| - 1;
      EndsExact(s[..n], delimiter, from);
      EndsInside(s[..n], delimiter, from);
      var before := Ends(s[..n], delimiter, from);
      assert forall p :: p in before <==> from < p <= n && s[p - 1] == delimiter;
    }
  }

  lemma {:induction false} EndsOfMore(s: seq<Byte>, more: seq<Byte>, delimiter: Byte, from: nat)
    requires from <= |s|
    ensures Ends(s + more, delimiter, from) == Ends(s, delimiter, from) + Ends(s + more, delimiter, |s|)
  {
    if more == [] {
      assert s + more == s;
    } else {
      var m := |more| - 1;
      EndsOfMore(s, more[..m], delimiter, from);
      assert (s + more)[..|s| + m] == s + more[..m];
    }
  }

  /** Scanning again from any delimiter found gives the rest of the list, and from the end of the last one nothing. */
  lemma {:induction false} EndsFromFound(s: seq<Byte>, delimiter: Byte, from: nat, p: nat)
    requires p < |Ends(s, delimiter, from)|
    ensures var ends := Ends(s, delimiter, from);
            ends[p] > 0 && ends[p..] == Ends(s, delimiter, ends[p] - 1) && Ends(s, delimiter, ends[|ends| - 1]) == []
  {
    var n := |s| - 1;
    var before := Ends(s[..n], delimiter, from);
    EndsInside(s[..n], delimiter, from);
    if p < |before| {
      EndsFromFound(s[..n], delimiter, from, p);
    } else {
      assert Ends(s[..n], delimiter, n) == [];
    }
  }

  /** The queue is exact: every delimiter from the first one queued on, or all there are if none is queued. */
  predicate Exact(v: View, delimiter: Byte) {
    v.len <= |v.memory| &&
    if v.bounds == [] then Ends(v.Content(), delimiter, 0) == []
    else v.bounds[0] > 0 && v.bounds == Ends(v.Content(), delimiter, v.bounds[0] - 1)
  }

  /** Going on from the last known delimiter finds what a scan of everything would. */
  lemma ScanGoesOn(s: seq<Byte>, more: seq<Byte>, delimiter: Byte, bounds: seq<nat>)
    requires bounds != [] && bounds[0] > 0 && bounds == Ends(s, delimiter, bounds[0] - 1)
    requires bounds[|bounds| - 1] <= |s|
    ensures bounds + Ends(s + more, delimiter, bounds[|bounds| - 1]) == Ends(s + more, delimiter, bounds[0] - 1)
  {
    EndsInside(s, delimiter, bounds[0] - 1);
    EndsFromFound(s, delimiter, bounds[0] - 1, 0);
    EndsOfMore(s, more, delimiter, bounds[0] - 1);
    EndsOfMore(s, more, delimiter, bounds[|bounds| - 1]);
  }

  lemma ReadKeepsExact(v: View, delimiter: Byte, offered: seq<Byte>)
    requires WellFormed(v) && Exact(v, delimiter)
    ensures Exact(ReadSection(v, delimiter, offered), delimiter)
  {
    var before, more := v.Content(), Accepted(v, offered);
    var r := ReadSection(v, delimiter, offered);
    assert r.Content() == before + more;
    if v.bounds == [] {
      EndsOfMore(before, more, delimiter, 0);
      assert r.bounds == Ends(r.Content(), delimiter, 0);
      if r.bounds != [] {
        EndsFromFound(r.Content(), delimiter, 0, 0);
      }
    } else {
      ScanGoesOn(before, more, delimiter, v.bounds);
      assert r.bounds == Ends(r.Content(), delimiter, v.bounds[0] - 1) && r.bounds[0] == v.bounds[0];
    }
  }

  lemma {:induction false} EndsOfTail(s: seq<Byte>, delimiter: Byte, from: nat)
    requires from <= |s| && Ends(s, delimiter, from) == []
    ensures Ends(s[from..], delimiter, 0) == []
  {
    if from < |s| {
      var n := |s| - 1;
      EndsOfTail(s[..n], delimiter, from);
      assert s[from..][..n - from] == s[..n][from..];
    }
  }

  // ---------------------------------------------------------------- the batches

  /** Whole batches take `size` messages each. */
  lemma {:induction false} WholeBatchesPopped(n: nat, size: nat, count: nat)
    requires count * size <= n
    ensures Popped(n, size, count) == count * size
  {
    if count > 0 {
      assert (count - 1) * size == count * size - size;
      WholeBatchesPopped(n, size, count - 1);
    }
  }

  lemma BatchCursor(memory: seq<Byte>, bounds: seq<nat>, size: nat, count: nat, i: nat)
    requires i < count && (i + 1) * size <= |bounds|
    ensures Batches(memory, bounds, size, count)[i] ==
            Cursor(memory, End(bounds, i * size), End(bounds, (i + 1) * size))
  {
    assert (i + 1) * size == i * size + size;
    WholeBatchesPopped(|bounds|, size, i);
    WholeBatchesPopped(|bounds|, size, i + 1);
  }

  /**
   Whole batch `i` is announced from its own first byte on, but with the end of the batch as its length; its bytes are
   those of the buffer from there on, cut off at the end of the array.
   */
  lemma BatchAt(memory: seq<Byte>, bounds: seq<nat>, size: nat, count: nat, i: nat)
    requires Inside(bounds, |memory|) && size > 0 && i < count && (i + 1) * size <= |bounds|
    ensures var message := Batches(memory, bounds, size, count)[i];
            var start := if i == 0 then 0 else Ending(bounds, i * size);
            var end := Ending(bounds, (i + 1) * size);
            && message.length == end
            && |message.bytes| == (if start + end <= |memory| then end else |memory| - start)
            && message.bytes == memory[start..start + |message.bytes|]
  {
    BatchCursor(memory, bounds, size, count, i);
    assert i > 0 ==> i * size > 0;
  }

  /** One past the last byte of message `k`, counted from one. */
  function Ending(bounds: seq<nat>, k: int): nat {
    if 0 < k <= |bounds| then bounds[k - 1] else 0
  }

  lemma Whole(n: nat, size: nat)
    requires size > 0
    ensures n / size * size == n - n % size && n % size < size
    ensures n / size < 1 <==> n < size
    ensures n / size == 1 && n % size == 0 <==> n == size
    ensures n < size ==> n % size == n
  {
    if n / size >= 2 {
      assert n / size * size >= 2 * size;
    }
  }

  /**
   What one publish takes off the queue: as many whole batches as there are, and one smaller batch only if there is
   no whole one and the time is up or the buffer full.  Buffer size 0 stands for everything in one batch.
   */
  lemma PublishPops(v: View, bufferSize: nat, timedOut: bool)
    requires WellFormed(v)
    ensures var (w, events) := PublishSection(v, bufferSize, timedOut);
            var n := |v.bounds|;
            if n == 0 then w.bounds == [] && events == if v.len == |v.memory| then [Discarded(v.memory)] else []
            else if bufferSize == 0 then w.bounds == [] && |events| == 1
            else if n >= bufferSize then
              w.bounds == v.bounds[n - n % bufferSize..] && |events| == n / bufferSize
            else if timedOut || v.len == |v.memory| then w.bounds == [] && |events| == 1
            else w == v && events == []
  {
    var n, size := |v.bounds|, BatchSize(bufferSize, |v.bounds|);
    if n > 0 {
      Whole(n, size);
      var count := BatchCount(v, bufferSize, timedOut);
      if n >= size {
        WholeBatchesPopped(n, size, count);
      } else if count == 1 {
        assert Popped(n, size, 0) == 0;
      }
    }
  }

  // ---------------------------------------------------------------- where the bytes go

  function BytesOf(e: Event): seq<Byte> {
    match e
    case Published(m) => m.bytes
    case Discarded(bytes) => bytes
  }

  function LengthOf(e: Event): nat {
    match e
    case Published(m) => m.length
    case Discarded(bytes) => |bytes|
  }

  function Bytes(events: seq<Event>): seq<Byte> {
    if events == [] then [] else Bytes(events[..|events| - 1]) + BytesOf(events[|events| - 1])
  }

  function Length(events: seq<Event>): nat {
    if events == [] then 0 else Length(events[..|events| - 1]) + LengthOf(events[|events| - 1])
  }

  /** What is announced is there, and with the bytes still buffered it is what came in. */
  predicate Conserved(received: seq<Byte>, events: seq<Event>, buffered: seq<Byte>) {
    Length(events) == |Bytes(events)| && Bytes(events) + buffered == received
  }

  lemma OneMoreEvent(events: seq<Event>, e: Event)
    ensures Bytes(events + [e]) == Bytes(events) + BytesOf(e) && Length(events + [e]) == Length(events) + LengthOf(e)
  {
    assert (events + [e])[..|events|] == events;
  }

  lemma {:induction false} EventsConcat(a: seq<Event>, b: seq<Event>)
    ensures Bytes(a + b) == Bytes(a) + Bytes(b) && Length(a + b) == Length(a) + Length(b)
  {
    if b == [] {
      assert a + b == a;
    } else {
      var front, e := b[..|b| - 1], b[|b| - 1];
      EventsConcat(a, front);
      assert a + b == (a + front) + [e] && b == front + [e];
      AppendToBoth(a, front, e);
    }
  }

  lemma AppendToBoth(a: seq<Event>, b: seq<Event>, e: Event)
    requires Bytes(a + b) == Bytes(a) + Bytes(b) && Length(a + b) == Length(a) + Length(b)
    ensures Bytes(a + b + [e]) == Bytes(a) + Bytes(b + [e]) && Length(a + b + [e]) == Length(a) + Length(b + [e])
  {
    OneMoreEvent(a + b, e);
    OneMoreEvent(b, e);
    Associate(Bytes(a), Bytes(b), BytesOf(e));
  }

  lemma Associate(a: seq<Byte>, b: seq<Byte>, c: seq<Byte>)
    ensures a + b + c == a + (b + c)
  {
  }

  lemma LengthOfMore(messages: seq<Message>, message: Message)
    ensures Length(Announced(messages + [message])) == Length(Announced(messages)) + message.length
  {
    OneMoreEvent(Announced(messages), Published(message));
    assert Announced(messages + [message]) == Announced(messages) + [Published(message)];
  }

  /** Every batch announces at least its own end; from the second on that is more than its bytes. */
  lemma {:induction false} BatchesLength(memory: seq<Byte>, bounds: seq<nat>, size: nat, count: nat)
    requires Inside(bounds, |memory|) && size > 0 && bounds != []
    ensures Length(Announced(Batches(memory, bounds, size, count))) >=
            End(bounds, Popped(|bounds|, size, count)) + if count >= 2 then 1 else 0
  {
    if count > 0 {
      BatchesLength(memory, bounds, size, count - 1);
      LengthOfMore(Batches(memory, bounds, size, count - 1), Batch(memory, bounds, size, count - 1));
    }
  }

  /** Everything queued goes out in one batch. */
  lemma AllInOne(v: View, bufferSize: nat, timedOut: bool)
    requires WellFormed(v) && v.bounds != [] && BatchCount(v, bufferSize, timedOut) > 0
    requires bufferSize == 0 || |v.bounds| <= bufferSize
    ensures var end := v.bounds[|v.bounds| - 1];
            PublishSection(v, bufferSize, timedOut)
            == (Compacted(v, end), [Published(Message(v.memory[..end], end))])
  {
    var size := BatchSize(bufferSize, |v.bounds|);
    Whole(|v.bounds|, size);
    var end := v.bounds[|v.bounds| - 1];
    assert Popped(|v.bounds|, size, 0) == 0 && Popped(|v.bounds|, size, 1) == |v.bounds|;
    var message := Message(v.memory[..end], end);
    assert Batch(v.memory, v.bounds, size, 0) == message;
    assert Announced(Batches(v.memory, v.bounds, size, 1)) == [Published(message)];
  }

  lemma CompactedConserves(v: View, end: nat)
    requires end <= v.len <= |v.memory|
    ensures var e := Published(Message(v.memory[..end], end));
            Conserved(v.Content(), [e], Compacted(v, end).Content()) && Length([e]) == end
  {
    EventsOfOne([Published(Message(v.memory[..end], end))]);
    assert v.memory[..end] + v.memory[end..v.len] == v.memory[..v.len];
  }

  lemma OneBatchConserves(v: View, bufferSize: nat, timedOut: bool)
    requires WellFormed(v) && (bufferSize == 0 || |v.bounds| <= bufferSize)
    ensures var (w, events) := PublishSection(v, bufferSize, timedOut);
            Conserved(v.Content(), events, w.Content()) && Length(events) + w.len == v.len
  {
    if BatchCount(v, bufferSize, timedOut) == 0 {
      WithoutBatchConserves(v);
    } else {
      AllInOne(v, bufferSize, timedOut);
      CompactedConserves(v, v.bounds[|v.bounds| - 1]);
    }
  }

  lemma WithoutBatchConserves(v: View)
    requires WellFormed(v)
    ensures var (w, events) := WithoutBatch(v);
            Conserved(v.Content(), events, w.Content()) && Length(events) + w.len == v.len
  {
    EventsOfOne(WithoutBatch(v).1);
    assert v.len == |v.memory| ==> v.Content() == v.memory;
  }

  lemma MoreBatchesRepeat(v: View, bufferSize: nat, timedOut: bool)
    requires WellFormed(v) && 0 < bufferSize < |v.bounds|
    ensures var (w, events) := PublishSection(v, bufferSize, timedOut); Length(events) + w.len > v.len
  {
    Whole(|v.bounds|, bufferSize);
    var count := BatchCount(v, bufferSize, timedOut);
    BatchesLength(v.memory, v.bounds, bufferSize, count);
    if count == 1 {
      assert Popped(|v.bounds|, bufferSize, 0) == 0;
    }
  }

  /** A publish accounts for every byte once exactly if one batch could hold all the messages. */
  lemma PublishConservesIff(v: View, bufferSize: nat, timedOut: bool)
    requires WellFormed(v)
    ensures var (w, events) := PublishSection(v, bufferSize, timedOut);
            Conserved(v.Content(), events, w.Content()) <==> bufferSize == 0 || |v.bounds| <= bufferSize
  {
    var (w, events) := PublishSection(v, bufferSize, timedOut);
    if bufferSize == 0 || |v.bounds| <= bufferSize {
      OneBatchConserves(v, bufferSize, timedOut);
    } else {
      MoreBatchesRepeat(v, bufferSize, timedOut);
      assert |Bytes(events) + w.Content()| == |Bytes(events)| + w.len;
    }
  }

  lemma EventsOfOne(events: seq<Event>)
    ensures events == [] ==> Bytes(events) == [] && Length(events) == 0
    ensures |events| == 1 ==> Bytes(events) == BytesOf(events[0]) && Length(events) == LengthOf(events[0])
  {
    if |events| == 1 {
      assert events[..0] == [];
    }
  }

  /** The buffer is left full exactly if it was full and the whole batches left a rest behind. */
  lemma LeftFullIff(v: View, bufferSize: nat, timedOut: bool)
    requires WellFormed(v) && |v.memory| > 0
    ensures PublishSection(v, bufferSize, timedOut).0.len == |v.memory| <==>
            v.len == |v.memory| && 0 < bufferSize < |v.bounds| && |v.bounds| % bufferSize != 0
  {
    var n, size := |v.bounds|, BatchSize(bufferSize, |v.bounds|);
    PublishPops(v, bufferSize, timedOut);
    if n > 0 {
      Whole(n, size);
      var count := BatchCount(v, bufferSize, timedOut);
      WholeBatchesPopped(n, size, if n >= size then count else 0);
    }
  }

  // ---------------------------------------------------------------- whole runs

  datatype Input = Read(offered: seq<Byte>, timedOut: bool) | Reset

  datatype Run = Run(v: View, received: seq<Byte>, events: seq<Event>)

  /** What a reset throws away is listed as discarded. */
  function Step(s: Run, input: Input, delimiter: Byte, bufferSize: nat): (r: Run)
    requires WellFormed(s.v)
    ensures WellFormed(r.v) && |r.v.memory| == |s.v.memory|
  {
    match input
    case Read(offered, timedOut) =>
      var (w, events) := PublishSection(ReadSection(s.v, delimiter, offered), bufferSize, timedOut);
      Run(w, s.received + Accepted(s.v, offered), s.events + events)
    case Reset =>
      Run(s.v.(len := 0, bounds := []), s.received, s.events + [Discarded(s.v.Content())])
  }

  function After(capacity: nat, inputs: seq<Input>, delimiter: Byte, bufferSize: nat): (r: Run)
    ensures WellFormed(r.v) && |r.v.memory| == capacity
  {
    if inputs == [] then Run(View(seq(capacity, i => 0), 0, []), [], [])
    else
      var n := |inputs| - 1;
      Step(After(capacity, inputs[..n], delimiter, bufferSize), inputs[n], delimiter, bufferSize)
  }

  predicate FitsOneBatch(v: View, input: Input, delimiter: Byte, bufferSize: nat)
    requires WellFormed(v)
  {
    input.Reset? || bufferSize == 0 || |ReadSection(v, delimiter, input.offered).bounds| <= bufferSize
  }

  /** No read of the run leaves more messages in the queue than one batch holds. */
  predicate WithinBatches(capacity: nat, inputs: seq<Input>, delimiter: Byte, bufferSize: nat) {
    inputs == [] ||
    var n := |inputs| - 1;
    WithinBatches(capacity, inputs[..n], delimiter, bufferSize) &&
    FitsOneBatch(After(capacity, inputs[..n], delimiter, bufferSize).v, inputs[n], delimiter, bufferSize)
  }

  function Accounted(s: Run): nat {
    Length(s.events) + s.v.len
  }

  predicate RunConserved(s: Run)
    requires WellFormed(s.v)
  {
    Conserved(s.received, s.events, s.v.Content())
  }

  /** As long as the messages fit one batch each byte stays accounted for once. */
  lemma FittingStepConserves(s: Run, input: Input, delimiter: Byte, bufferSize: nat)
    requires WellFormed(s.v) && FitsOneBatch(s.v, input, delimiter, bufferSize)
    ensures var t := Step(s, input, delimiter, bufferSize);
            Accounted(t) - |t.received| == Accounted(s) - |s.received| && (RunConserved(s) ==> RunConserved(t))
  {
    var t := Step(s, input, delimiter, bufferSize);
    match input
    case Reset =>
      var events := [Discarded(s.v.Content())];
      EventsOfOne(events);
      ConcatConserves(s, events, [], t);
    case Read(offered, timedOut) =>
      var u := ReadSection(s.v, delimiter, offered);
      OneBatchConserves(u, bufferSize, timedOut);
      ConcatConserves(s, PublishSection(u, bufferSize, timedOut).1, Accepted(s.v, offered), t);
  }

  lemma ConcatConserves(s: Run, events: seq<Event>, more: seq<Byte>, t: Run)
    requires WellFormed(s.v) && WellFormed(t.v)
    requires t.events == s.events + events && t.received == s.received + more
    requires Conserved(s.v.Content() + more, events, t.v.Content())
    ensures RunConserved(s) ==> RunConserved(t)
    ensures Accounted(t) - |t.received| == Accounted(s) - |s.received|
  {
    EventsConcat(s.events, events);
    Regroup(Bytes(s.events), Bytes(events), t.v.Content(), s.v.Content(), more);
  }

  lemma Regroup(a: seq<Byte>, b: seq<Byte>, c: seq<Byte>, d: seq<Byte>, e: seq<Byte>)
    requires b + c == d + e
    ensures a + b + c == a + d + e && |b| + |c| == |d| + |e|
  {
    assert a + b + c == a + (b + c);
    assert a + d + e == a + (d + e);
    assert |b + c| == |d + e|;
  }

  /** Otherwise more bytes are announced than came in. */
  lemma OverfullStepRepeats(s: Run, input: Input, delimiter: Byte, bufferSize: nat)
    requires WellFormed(s.v) && !FitsOneBatch(s.v, input, delimiter, bufferSize)
    ensures var t := Step(s, input, delimiter, bufferSize);
            Accounted(t) - |t.received| > Accounted(s) - |s.received|
  {
    var u := ReadSection(s.v, delimiter, input.offered);
    MoreBatchesRepeat(u, bufferSize, input.timedOut);
    EventsConcat(s.events, PublishSection(u, bufferSize, input.timedOut).1);
  }

  /**
   Over a whole run, what was published and discarded, in order, followed by what is still buffered, is what came in
   exactly if no read ever left more messages than one batch holds; otherwise more bytes were announced than came in.
   */
  lemma {:induction false} RunConservesIff(capacity: nat, inputs: seq<Input>, delimiter: Byte, bufferSize: nat)
    ensures var s := After(capacity, inputs, delimiter, bufferSize);
            Accounted(s) >= |s.received| &&
            (RunConserved(s) <==> WithinBatches(capacity, inputs, delimiter, bufferSize)) &&
            (!WithinBatches(capacity, inputs, delimiter, bufferSize) ==> Accounted(s) > |s.received|)
  {
    if inputs != [] {
      var n := |inputs| - 1;
      RunConservesIff(capacity, inputs[..n], delimiter, bufferSize);
      var before := After(capacity, inputs[..n], delimiter, bufferSize);
      if FitsOneBatch(before.v, inputs[n], delimiter, bufferSize) {
        FittingStepConserves(before, inputs[n], delimiter, bufferSize);
      } else {
        OverfullStepRepeats(before, inputs[n], delimiter, bufferSize);
      }
    }
    ConservedIsAccounted(After(capacity, inputs, delimiter, bufferSize));
  }

  lemma ConservedIsAccounted(s: Run)
    requires WellFormed(s.v)
    ensures RunConserved(s) ==> Accounted(s) == |s.received|
  {
    if RunConserved(s) {
      assert |Bytes(s.events) + s.v.Content()| == |Bytes(s.events)| + s.v.len;
    }
  }

  lemma CompactedIsExact(v: View, delimiter: Byte)
    requires WellFormed(v) && Exact(v, delimiter) && v.bounds != []
    ensures Exact(Compacted(v, v.bounds[|v.bounds| - 1]), delimiter)
  {
    var s, end := v.Content(), v.bounds[|v.bounds| - 1];
    EndsFromFound(s, delimiter, v.bounds[0] - 1, 0);
    EndsOfTail(s, delimiter, end);
    assert s[end..] == v.memory[end..v.len];
  }

  lemma PoppedIsExact(v: View, delimiter: Byte, k: nat)
    requires WellFormed(v) && Exact(v, delimiter) && k < |v.bounds|
    ensures Exact(v.(bounds := v.bounds[k..]), delimiter)
  {
    EndsFromFound(v.Content(), delimiter, v.bounds[0] - 1, k);
    assert v.(bounds := v.bounds[k..]).Content() == v.Content();
  }

  lemma BatchesKeepExact(v: View, delimiter: Byte, size: nat, count: nat)
    requires WellFormed(v) && Exact(v, delimiter) && v.bounds != []
    ensures Exact(WithBatches(v, size, count).0, delimiter)
  {
    var k := Popped(|v.bounds|, size, count);
    if k < |v.bounds| {
      PoppedIsExact(v, delimiter, k);
    } else {
      CompactedIsExact(v, delimiter);
    }
  }

  lemma PublishKeepsExact(v: View, delimiter: Byte, bufferSize: nat, timedOut: bool)
    requires WellFormed(v) && Exact(v, delimiter)
    ensures Exact(PublishSection(v, bufferSize, timedOut).0, delimiter)
  {
    if v.bounds != [] {
      BatchesKeepExact(v, delimiter, BatchSize(bufferSize, |v.bounds|), BatchCount(v, bufferSize, timedOut));
    }
  }

  /** However messages are batched, no delimiter is missed and none is queued twice. */
  lemma {:induction false} QueueStaysExact(capacity: nat, inputs: seq<Input>, delimiter: Byte, bufferSize: nat)
    ensures Exact(After(capacity, inputs, delimiter, bufferSize).v, delimiter)
  {
    if inputs != [] {
      var n := |inputs| - 1;
      QueueStaysExact(capacity, inputs[..n], delimiter, bufferSize);
      var before := After(capacity, inputs[..n], delimiter, bufferSize).v;
      match inputs[n]
      case Reset =>
      case Read(offered, timedOut) =>
        ReadKeepsExact(before, delimiter, offered);
        PublishKeepsExact(ReadSection(before, delimiter, offered), delimiter, bufferSize, timedOut);
    }
  }

  /** An event of a run without batching: a payload ends in the delimiter, a discarded block holds none. */
  predicate WellCut(e: Event, delimiter: Byte) {
    match e
    case Published(m) => m.length == |m.bytes| > 0 && m.bytes[|m.bytes| - 1] == delimiter
    case Discarded(bytes) => Ends(bytes, delimiter, 0) == []
  }

  lemma PublishAllCutsWell(v: View, delimiter: Byte, timedOut: bool)
    requires WellFormed(v) && Exact(v, delimiter) && |v.memory| > 0
    ensures var (w, events) := PublishSection(v, 0, timedOut);
            w.bounds == [] && w.len < |w.memory| &&
            forall i :: 0 <= i < |events| ==> WellCut(events[i], delimiter)
  {
    if v.bounds == [] {
      assert v.len == |v.memory| ==> v.Content() == v.memory;
    } else {
      LastQueued(v, delimiter);
      Whole(|v.bounds|, |v.bounds|);
      AllInOne(v, 0, timedOut);
      var end := v.bounds[|v.bounds| - 1];
      assert WellCut(Published(Message(v.memory[..end], end)), delimiter);
    }
  }

  lemma LastQueued(v: View, delimiter: Byte)
    requires WellFormed(v) && Exact(v, delimiter) && v.bounds != []
    ensures v.memory[v.bounds[|v.bounds| - 1] - 1] == delimiter
  {
    var s, from := v.Content(), v.bounds[0] - 1;
    EndsExact(s, delimiter, from);
    var end := Ends(s, delimiter, from)[|v.bounds| - 1];
    assert end in Ends(s, delimiter, from);
    assert s[end - 1] == delimiter;
  }

  /** With the default buffer size every complete message is out after each read and the buffer has room again. */
  lemma PublishAllRun(capacity: nat, inputs: seq<Input>, delimiter: Byte)
    requires capacity > 0
    ensures var s := After(capacity, inputs, delimiter, 0);
            RunConserved(s) && s.v.len < capacity && s.v.bounds == [] && Ends(s.v.Content(), delimiter, 0) == [] &&
            forall i :: 0 <= i < |s.events| ==> WellCut(s.events[i], delimiter)
  {
    RunConservesIff(capacity, inputs, delimiter, 0);
    AlwaysWithin(capacity, inputs, delimiter);
    QueueStaysExact(capacity, inputs, delimiter, 0);
    EventsWellCut(capacity, inputs, delimiter);
  }

  lemma {:induction false} AlwaysWithin(capacity: nat, inputs: seq<Input>, delimiter: Byte)
    ensures WithinBatches(capacity, inputs, delimiter, 0)
  {
    if inputs != [] {
      AlwaysWithin(capacity, inputs[..|inputs| - 1], delimiter);
    }
  }

  lemma {:induction false} EventsWellCut(capacity: nat, inputs: seq<Input>, delimiter: Byte)
    requires capacity > 0
    ensures var s := After(capacity, inputs, delimiter, 0);
            s.v.len < capacity && s.v.bounds == [] &&
            forall i :: 0 <= i < |s.events| ==> WellCut(s.events[i], delimiter)
  {
    if inputs != [] {
      var n := |inputs| - 1;
      EventsWellCut(capacity, inputs[..n], delimiter);
      QueueStaysExact(capacity, inputs[..n], delimiter, 0);
      StepCutsWell(After(capacity, inputs[..n], delimiter, 0), inputs[n], delimiter);
    }
  }

  lemma StepCutsWell(s: Run, input: Input, delimiter: Byte)
    requires WellFormed(s.v) && Exact(s.v, delimiter) && |s.v.memory| > 0 && s.v.bounds == []
    ensures var t := Step(s, input, delimiter, 0);
            t.v.len < |t.v.memory| && t.v.bounds == [] && s.events <= t.events &&
            forall i :: |s.events| <= i < |t.events| ==> WellCut(t.events[i], delimiter)
  {
    match input
    case Reset =>
    case Read(offered, timedOut) =>
      ReadKeepsExact(s.v, delimiter, offered);
      PublishAllCutsWell(ReadSection(s.v, delimiter, offered), delimiter, timedOut);
  }

  // ---------------------------------------------------------------- two runs that show the limits of batching

  const TWO: seq<Byte> := [1, 10, 2, 10]
  const THREE: seq<Byte> := TWO + [3, 10]

  lemma EndsOfOneMore(s: seq<Byte>, b: Byte, delimiter: Byte)
    ensures Ends(s + [b], delimiter, 0) == Ends(s, delimiter, 0) + if b == delimiter then [|s| + 1] else []
  {
    assert (s + [b])[..|s|] == s;
  }

  lemma EndsOfTwoAndThree()
    ensures Ends(TWO, 10, 0) == [2, 4] && Ends(THREE, 10, 0) == [2, 4, 6]
  {
    EndsOfOneMore([], 1, 10);
    EndsOfOneMore([1], 10, 10);
    EndsOfOneMore([1, 10], 2, 10);
    EndsOfOneMore([1, 10, 2], 10, 10);
    EndsOfOneMore(TWO, 3, 10);
    EndsOfOneMore(TWO + [3], 10, 10);
    assert TWO == [1, 10, 2] + [10] && THREE == TWO + [3] + [10];
  }

  /** The first read of a buffer with enough room. */
  lemma FirstRead(capacity: nat, data: seq<Byte>, timedOut: bool, delimiter: Byte, bufferSize: nat) returns (u: View)
    requires |data| <= capacity
    ensures WellFormed(u) && |u.memory| == capacity && u.Content() == data && u.bounds == Ends(data, delimiter, 0)
    ensures var before := After(capacity, [], delimiter, bufferSize);
            u == ReadSection(before.v, delimiter, data) && before.v.len == 0
    ensures var (w, events) := PublishSection(u, bufferSize, timedOut);
            After(capacity, [Read(data, timedOut)], delimiter, bufferSize) == Run(w, data, events)
  {
    var inputs := [Read(data, timedOut)];
    assert inputs[..0] == [];
    var before := After(capacity, [], delimiter, bufferSize);
    u := ReadSection(before.v, delimiter, data);
    assert Accepted(before.v, data) == data && before.v.Content() + data == data;
    assert u.bounds == [] + Ends(data, delimiter, 0);
  }

  /** Two messages arrive at once and are published one by one: the second one announces the length of both. */
  lemma BatchesRepeat()
    ensures !WithinBatches(8, [Read(TWO, false)], 10, 1) && !RunConserved(After(8, [Read(TWO, false)], 10, 1))
    ensures var s := After(8, [Read(TWO, false)], 10, 1);
            s.received == TWO && s.v.len == 0 && Length(s.events) == 6
  {
    var u := FirstRead(8, TWO, false, 10, 1);
    EndsOfTwoAndThree();
    assert [Read(TWO, false)][..0] == [];
    RunConservesIff(8, [Read(TWO, false)], 10, 1);
    TwoByOne(u);
  }

  lemma TwoByOne(u: View)
    requires WellFormed(u) && u.bounds == [2, 4] && u.len == 4
    ensures var (w, events) := PublishSection(u, 1, false); w.len == 0 && Length(events) == 6
  {
    WholeBatchesPopped(2, 1, 1);
    WholeBatchesPopped(2, 1, 2);
    var first, second := Batch(u.memory, u.bounds, 1, 0), Batch(u.memory, u.bounds, 1, 1);
    assert Popped(2, 1, 0) == 0 && first.length == 2 && second.length == 4;
    LengthOfMore([], first);
    LengthOfMore([first], second);
    assert Batches(u.memory, u.bounds, 1, 1) == [first] && [] + [first] == [first];
    assert Batches(u.memory, u.bounds, 1, 2) == [first] + [second];
  }

  /** Three messages fill the buffer; after a batch of two it is still full and takes no more bytes. */
  lemma BatchesLeaveFull()
    ensures var s := After(6, [Read(THREE, false)], 10, 2);
            s.v.len == 6 && s.v.bounds == [6] && forall offered :: Accepted(s.v, offered) == []
  {
    var u := FirstRead(6, THREE, false, 10, 2);
    EndsOfTwoAndThree();
    PublishPops(u, 2, false);
    LeftFullIff(u, 2, false);
  }

  // ---------------------------------------------------------------- the object

  class SensorBuffer {
    const buffer: array<Byte>
    const delimiter: Byte
    const bufferSize: nat
    var len: nat
    var bounds: seq<nat>

    ghost function Value(): View
      reads this, buffer
    {
      View(buffer[..], len, bounds)
    }

    ghost predicate Valid()
      reads this, buffer
    {
      WellFormed(Value())
    }

    constructor (capacity: nat, delimiter: Byte, bufferSize: nat)
      ensures Valid() && fresh(buffer) && buffer.Length == capacity && len == 0 && bounds == []
      ensures this.delimiter == delimiter && this.bufferSize == bufferSize
    {
      buffer := new Byte[capacity];
      this.delimiter := delimiter;
      this.bufferSize := bufferSize;
      len := 0;
      bounds := [];
    }

    /** One successful socket read with the scan for delimiters and the publish that follow it. */
    method OnRead(offered: seq<Byte>, timedOut: bool) returns (events: seq<Event>)
      requires Valid()
      modifies this, buffer
      ensures Valid()
      ensures (Value(), events) ==
              PublishSection(ReadSection(old(Value()), delimiter, offered), bufferSize, timedOut)
    {
      var startPos := len;
      var numRead := ReadSocket(offered);
      Scan(startPos);
      events := Publish(timedOut);
    }

    /** The socket read: appends as much as there is room for. */
    method ReadSocket(offered: seq<Byte>) returns (numRead: nat)
      requires Valid()
      modifies this`len, buffer
      ensures Valid() && numRead == |Accepted(old(Value()), offered)|
      ensures Value() == Received(old(Value()), Accepted(old(Value()), offered))
      ensures numRead == if |offered| <= buffer.Length - old(len) then |offered| else buffer.Length - old(len)
      ensures len == old(len) + numRead && buffer[..len] == old(buffer[..len]) + offered[..numRead]
    {
      ghost var was := buffer[..];
      numRead := Min(|offered|, buffer.Length - len);
      forall i | 0 <= i < numRead {
        buffer[len + i] := offered[i];
      }
      assert buffer[..] == was[..len] + offered[..numRead] + was[len + numRead..];
      len := len + numRead;
    }

    method Scan(startPos: nat)
      requires Valid() && startPos <= len
      modifies this`bounds
      ensures Valid() && Value() == Scanned(old(Value()), delimiter, startPos)
    {
      ghost var was := Value();
      var beginPos := if bounds == [] then startPos else bounds[|bounds| - 1];
      ghost var found := [];
      var pos := beginPos;
      while pos < len
        invariant beginPos <= pos <= len
        invariant bounds == was.bounds + found
        invariant found == Ends(buffer[..pos], delimiter, beginPos)
      {
        assert buffer[..pos + 1][..pos] == buffer[..pos];
        if buffer[pos] == delimiter {
          bounds := bounds + [pos + 1];
          found := found + [pos + 1];
        }
        pos := pos + 1;
      }
      assert was.Content() == buffer[..pos];
      assert Value() == Scanned(was, delimiter, startPos);
    }

    method Publish(timedOut: bool) returns (events: seq<Event>)
      requires Valid()
      modifies this, buffer
      ensures Valid()
      ensures (Value(), events) == PublishSection(old(Value()), bufferSize, timedOut)
    {
      var size, numBatches, discarded := NeedPublish(timedOut);
      if numBatches == 0 {
        return discarded;
      }
      events := PublishBatches(size, numBatches);
    }

    method PublishBatches(size: nat, numBatches: nat) returns (events: seq<Event>)
      requires Valid()
      modifies this, buffer
      ensures Valid() && (Value(), events) == WithBatches(old(Value()), size, numBatches)
    {
      var lastEom, messages := TakeBatches(size, numBatches);
      if bounds == [] {
        Compact(lastEom);
      }
      events := Announced(messages);
    }

    method TakeBatches(size: nat, count: nat) returns (lastEom: nat, messages: seq<Message>)
      modifies this`bounds
      ensures AfterBatches(buffer[..], old(bounds), size, count, bounds, lastEom, messages)
    {
      ghost var queued, memory := bounds, buffer[..];
      var startPos: nat, numBatches: nat := 0, count;
      lastEom, messages := 0, [];
      while numBatches > 0
        invariant startPos == lastEom && numBatches <= count && buffer[..] == memory
        invariant AfterBatches(memory, queued, size, count - numBatches, bounds, lastEom, messages)
      {
        OneMoreBatch(memory, queued, size, count - numBatches, bounds, lastEom, messages);
        lastEom := Pop(Min(|bounds|, size), startPos);
        messages := messages + [Cursor(buffer[..], startPos, lastEom)];
        startPos := lastEom;
        numBatches := numBatches - 1;
      }
    }

    /** Pop the boundaries of one batch; the result is where it ends. */
    method Pop(numToPub: nat, startPos: nat) returns (lastEom: nat)
      requires numToPub <= |bounds|
      modifies this`bounds
      ensures bounds == old(bounds)[numToPub..]
      ensures lastEom == if numToPub == 0 then startPos else old(bounds)[numToPub - 1]
    {
      lastEom := startPos;
      for i := 0 to numToPub
        invariant bounds == old(bounds)[i..]
        invariant lastEom == if i == 0 then startPos else old(bounds)[i - 1]
      {
        lastEom := bounds[0];
        bounds := bounds[1..];
      }
    }

    /** Move the bytes after the last message to the front. */
    method Compact(lastEom: nat)
      requires Valid() && lastEom <= len && bounds == []
      modifies this`len, buffer
      ensures Valid() && Value() == Compacted(old(Value()), lastEom)
    {
      ghost var was := buffer[..];
      var count := len - lastEom;
      var moved := buffer[lastEom..len];
      forall i | 0 <= i < count {
        buffer[i] := moved[i];
      }
      assert buffer[..] == moved + was[count..];
      len := count;
    }

    /** How many batches to publish and of what size; a full buffer without a delimiter is discarded. */
    method NeedPublish(timedOut: bool) returns (size: nat, numBatches: nat, discarded: seq<Event>)
      requires Valid()
      modifies this`len
      ensures size == BatchSize(bufferSize, |bounds|)
      ensures numBatches == BatchCount(old(Value()), bufferSize, timedOut)
      ensures Value() == old(Value()).(len := if bounds == [] && old(len) == buffer.Length then 0 else old(len))
      ensures discarded ==
              if bounds == [] && old(len) == buffer.Length then [Discarded(old(buffer[..]))] else []
    {
      discarded := [];
      size := bufferSize;
      if size == 0 {
        size := |bounds|;
      }
      numBatches := if bounds == [] then 0 else |bounds| / size;
      if numBatches < 1 {
        if bounds != [] {
          if timedOut {
            numBatches := 1;
          } else if len == buffer.Length {
            numBatches := 1;
          }
        } else if len == buffer.Length {
          discarded := [Discarded(buffer[..])];
          len := 0;
        }
      }
    }

    method Reset()
      requires Valid()
      modifies this
      ensures Valid() && Value() == old(Value()).(len := 0, bounds := [])
    {
      len := 0;
      while bounds != []
        invariant len == 0
        decreases |bounds|
      {
        bounds := bounds[1..];
      }
    }
  }
}
