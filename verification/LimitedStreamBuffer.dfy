/**
 The bounded buffer for the output of a job (source/jobs/LimitedStreamBuffer.cpp).

 The specification looks at the whole history of added strings: what the buffer holds is the longest suffix of
 whole chunks that fits the limit, where a chunk above the limit counts with its last characters only.
 */
module LimitedStreamBuffer {

  function Total(chunks: seq<string>): nat {
    if chunks == [] then 0 else Total(chunks[..|chunks| - 1]) + |chunks[|chunks| - 1]|
  }

  function Joined(chunks: seq<string>): string {
    if chunks == [] then "" else Joined(chunks[..|chunks| - 1]) + chunks[|chunks| - 1]
  }

  function Clip(value: string, limit: nat): string {
    if |value| > limit then value[|value| - limit..] else value
  }

  function Clipped(history: seq<string>, limit: nat): (chunks: seq<string>)
    ensures |chunks| == |history|
  {
    if history == [] then []
    else Clipped(history[..|history| - 1], limit) + [Clip(history[|history| - 1], limit)]
  }

  /** Whole chunks taken from the back for as long as they fit. */
  function Kept(chunks: seq<string>, room: nat): string {
    if chunks == [] then ""
    else
      var last := chunks[|chunks| - 1];
      if |last| > room then "" else Kept(chunks[..|chunks| - 1], room - |last|) + last
  }

  // ---------------------------------------------------------------- the meaning of Kept

  lemma {:induction false} TotalSplit(chunks: seq<string>, k: nat)
    requires k <= |chunks|
    ensures Total(chunks) == Total(chunks[..k]) + Total(chunks[k..])
  {
    if k == |chunks| {
      assert chunks[..k] == chunks;
    } else {
      var n := |chunks| - 1;
      TotalSplit(chunks[..n], k);
      assert chunks[..n][..k] == chunks[..k];
      assert chunks[..n][k..] == chunks[k..][..n - k];
    }
  }

  /** The kept text is a suffix of whole chunks, it fits, and no longer suffix does. */
  lemma {:induction false} KeptIsLongestSuffix(chunks: seq<string>, room: nat) returns (k: nat)
    ensures k <= |chunks| && Kept(chunks, room) == Joined(chunks[k..])
    ensures Total(chunks[k..]) <= room
    ensures forall j: nat :: j < k ==> Total(chunks[j..]) > room
  {
    if chunks == [] {
      k := 0;
    } else {
      var n := |chunks| - 1;
      var last := chunks[n];
      if |last| > room {
        k := |chunks|;
        forall j: nat | j < k ensures Total(chunks[j..]) > room {
          assert chunks[j..][|chunks[j..]| - 1] == last;
        }
      } else {
        k := KeptIsLongestSuffix(chunks[..n], room - |last|);
        assert chunks[k..][..n - k] == chunks[..n][k..];
        forall j: nat | j < k ensures Total(chunks[j..]) > room {
          assert chunks[j..][..n - j] == chunks[..n][j..];
        }
      }
    }
  }

  lemma {:induction false} KeptWhenAllFits(chunks: seq<string>, room: nat)
    requires Total(chunks) <= room
    ensures Kept(chunks, room) == Joined(chunks)
  {
    if chunks != [] {
      KeptWhenAllFits(chunks[..|chunks| - 1], room - |chunks[|chunks| - 1]|);
    }
  }

  lemma {:induction false} KeptInNoRoom(chunks: seq<string>)
    ensures Kept(chunks, 0) == ""
  {
    if chunks != [] {
      KeptInNoRoom(chunks[..|chunks| - 1]);
    }
  }

  /** While everything together is too long, the first chunk does not matter. */
  lemma {:induction false} KeptWithoutFront(chunks: seq<string>, room: nat)
    requires chunks != [] && Total(chunks) > room
    ensures Kept(chunks, room) == Kept(chunks[1..], room)
  {
    var n := |chunks| - 1;
    if n > 0 && |chunks[n]| <= room {
      assert chunks[1..][..n - 1] == chunks[..n][1..];
      KeptWithoutFront(chunks[..n], room - |chunks[n]|);
    }
  }

  lemma {:induction false} JoinedLength(chunks: seq<string>)
    ensures |Joined(chunks)| == Total(chunks)
  {
    if chunks != [] {
      JoinedLength(chunks[..|chunks| - 1]);
    }
  }

  /** Two chunk lists that no later addition can tell apart in a buffer of this size. */
  ghost predicate SameTails(chunks: seq<string>, history: seq<string>, limit: nat) {
    forall room: nat :: room <= limit ==> Kept(chunks, room) == Kept(history, room)
  }

  lemma SameTailsAppend(chunks: seq<string>, history: seq<string>, value: string, limit: nat)
    requires |value| <= limit && SameTails(chunks, history, limit - |value|)
    ensures SameTails(chunks + [value], history + [value], limit)
  {
    assert (chunks + [value])[..|chunks|] == chunks;
    assert (history + [value])[..|history|] == history;
  }

  predicate IsSuffixOf(text: string, whole: string) {
    |text| <= |whole| && text == whole[|whole| - |text|..]
  }

  lemma LongerSuffix(text: string, whole: string, more: string)
    requires IsSuffixOf(text, whole)
    ensures IsSuffixOf(text + more, whole + more)
  {
  }

  /** What is kept are the last characters of everything that was ever added. */
  lemma {:induction false} KeptIsSuffix(history: seq<string>, limit: nat, room: nat)
    requires room <= limit
    ensures IsSuffixOf(Kept(Clipped(history, limit), room), Joined(history))
  {
    if history != [] {
      var front, value := history[..|history| - 1], history[|history| - 1];
      var chunks := Clipped(history, limit);
      assert chunks[..|chunks| - 1] == Clipped(front, limit);
      if |Clip(value, limit)| <= room {
        KeptIsSuffix(front, limit, room - |Clip(value, limit)|);
        OneMoreValue(front, value, limit, room);
      }
    }
  }

  lemma OneMoreValue(front: seq<string>, value: string, limit: nat, room: nat)
    requires |Clip(value, limit)| <= room <= limit
    requires IsSuffixOf(Kept(Clipped(front, limit), room - |Clip(value, limit)|), Joined(front))
    ensures IsSuffixOf(Kept(Clipped(front, limit), room - |Clip(value, limit)|) + Clip(value, limit),
                       Joined(front) + value)
  {
    var chunk := Clip(value, limit);
    if |value| > limit {
      KeptInNoRoom(Clipped(front, limit));
      assert "" + chunk == chunk;
      SuffixOfLast(chunk, value, Joined(front));
    } else {
      LongerSuffix(Kept(Clipped(front, limit), room - |chunk|), Joined(front), value);
    }
  }

  lemma SuffixOfLast(text: string, value: string, front: string)
    requires IsSuffixOf(text, value)
    ensures IsSuffixOf(text, front + value)
  {
  }

  /** A last value that fills the limit leaves exactly its own last characters. */
  lemma LongValueStays(history: seq<string>, limit: nat)
    requires history != [] && |history[|history| - 1]| >= limit
    ensures var last := history[|history| - 1];
            Kept(Clipped(history, limit), limit) == last[|last| - limit..]
  {
    var front := history[..|history| - 1];
    var chunks := Clipped(history, limit);
    assert chunks[..|chunks| - 1] == Clipped(front, limit);
    KeptInNoRoom(Clipped(front, limit));
    var last := history[|history| - 1];
    assert "" + last[|last| - limit..] == last[|last| - limit..];
  }

  /** Values that fit together are all there. */
  lemma {:induction false} ShortHistoryStays(history: seq<string>, limit: nat, room: nat)
    requires Total(history) <= room <= limit
    ensures Kept(Clipped(history, limit), room) == Joined(history)
  {
    if history != [] {
      var front, value := history[..|history| - 1], history[|history| - 1];
      var chunks := Clipped(history, limit);
      assert chunks[..|chunks| - 1] == Clipped(front, limit);
      ShortHistoryStays(front, limit, room - |value|);
    }
  }

  /**
   The text holds the last characters of everything added: all of it if that fits, and exactly the last characters of
   the last value if that one alone fills the limit.
   */
  predicate IsTextOf(text: string, history: seq<string>, limit: nat) {
    && IsSuffixOf(text, Joined(history)) && |text| <= limit
    && (Total(history) <= limit ==> text == Joined(history))
    && (history != [] && |history[|history| - 1]| >= limit ==>
          text == history[|history| - 1][|history[|history| - 1]| - limit..])
  }

  lemma KeptIsText(history: seq<string>, limit: nat)
    ensures IsTextOf(Kept(Clipped(history, limit), limit), history, limit)
  {
    KeptIsSuffix(history, limit, limit);
    if history != [] && |history[|history| - 1]| >= limit {
      LongValueStays(history, limit);
    }
    if Total(history) <= limit {
      ShortHistoryStays(history, limit, limit);
    }
    var k := KeptIsLongestSuffix(Clipped(history, limit), limit);
    JoinedLength(Clipped(history, limit)[k..]);
  }

  class LimitedStreamBuffer {
    var contentsSize: nat
    const contentsSizeLimit: nat
    var buffer: seq<string>
    ghost var history: seq<string>    // every value that was ever added

    ghost predicate Valid()
      reads this
    {
      && contentsSize == Total(buffer) <= contentsSizeLimit
      && SameTails(buffer, Clipped(history, contentsSizeLimit), contentsSizeLimit)
    }

    constructor (sizeLimit: nat)
      ensures Valid() && history == [] && contentsSizeLimit == sizeLimit
    {
      contentsSize, contentsSizeLimit, buffer, history := 0, sizeLimit, [], [];
    }

    method AddString(value: string)
      requires Valid()
      modifies this
      ensures Valid() && history == old(history) + [value]
    {
      var limit := contentsSizeLimit;
      history := history + [value];
      assert history[..|history| - 1] == old(history);
      assert Clipped(history, limit) == Clipped(old(history), limit) + [Clip(value, limit)];
      if |value| > contentsSizeLimit {
        buffer := [];
        buffer := buffer + [value[|value| - contentsSizeLimit..]];
        contentsSize := contentsSizeLimit;
        assert buffer == [] + [Clip(value, limit)];
        KeptInNoRoom(Clipped(old(history), limit));
        SameTailsAppend([], Clipped(old(history), limit), Clip(value, limit), limit);
        return;
      }
      while contentsSize + |value| > contentsSizeLimit
        invariant contentsSize == Total(buffer) && history == old(history) + [value]
        invariant SameTails(buffer, Clipped(old(history), limit), limit - |value|)
        decreases |buffer|
      {
        TotalSplit(buffer, 1);
        assert Total(buffer[..1]) == |buffer[0]| by {
          assert buffer[..1] == [buffer[0]];
          assert [buffer[0]][..0] == [];
        }
        forall room: nat | room <= limit - |value| ensures Kept(buffer, room) == Kept(buffer[1..], room) {
          KeptWithoutFront(buffer, room);
        }
        var frontSize := |buffer[0]|;
        buffer := buffer[1..];
        contentsSize := contentsSize - frontSize;
      }
      SameTailsAppend(buffer, Clipped(old(history), limit), value, limit);
      assert (buffer + [value])[..|buffer|] == buffer;
      buffer := buffer + [value];
      contentsSize := contentsSize + |value|;
    }

    /** The text is that of the longest fitting suffix of everything ever added. */
    method ToString() returns (output: string)
      requires Valid()
      ensures output == Kept(Clipped(history, contentsSizeLimit), contentsSizeLimit)
      ensures |output| == contentsSize <= contentsSizeLimit
      ensures IsTextOf(output, history, contentsSizeLimit)
    {
      output := "";
      var i := 0;
      while i < |buffer|
        invariant 0 <= i <= |buffer| && output == Joined(buffer[..i])
      {
        assert buffer[..i + 1][..i] == buffer[..i];
        output := output + buffer[i];
        i := i + 1;
      }
      assert buffer[..i] == buffer;
      KeptWhenAllFits(buffer, contentsSizeLimit);
      JoinedLength(buffer);
      KeptIsText(history, contentsSizeLimit);
    }
  }

  // ---------------------------------------------------------------- the status detail made of it

  const MAX_STATUS_DETAIL_LENGTH: nat := 1024

  /** What publishUpdateJobExecutionStatus sends of a text. */
  function StatusDetail(text: string): string {
    var startPos := if |text| > MAX_STATUS_DETAIL_LENGTH then |text| - MAX_STATUS_DETAIL_LENGTH else 0;
    text[startPos..]
  }

  /** The text of a buffer of limit L reaches the service unchanged exactly if it has at most 1024 characters. */
  lemma StatusDetailIsWholeText(history: seq<string>, limit: nat)
    ensures var text := Kept(Clipped(history, limit), limit);
            && |text| <= limit
            && (limit <= MAX_STATUS_DETAIL_LENGTH ==> StatusDetail(text) == text)
            && (StatusDetail(text) == text <==> |text| <= MAX_STATUS_DETAIL_LENGTH)
  {
    var k := KeptIsLongestSuffix(Clipped(history, limit), limit);
    JoinedLength(Clipped(history, limit)[k..]);
  }
}
