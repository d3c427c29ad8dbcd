/**
 The command line of a job step: words separated by commas, where `\,` stands for a comma inside a word
 (source/jobs/JobDocument.cpp, source/util/StringUtils.cpp).
 */
module CommandParser {

  const WHITESPACE: string := " \t\n\U{0B}\U{0C}\r"

  /** The white space of the C locale. */
  predicate IsSpace(c: char) {
    c == ' ' || '\t' <= c <= '\r'
  }

  /** What is trimmed off a word is what a first word must not hold. */
  lemma WhitespaceIsSpace(c: char)
    ensures c in WHITESPACE <==> IsSpace(c)
  {
    if '\t' <= c <= '\r' {
      CodesBetween(c);
    }
    assert WHITESPACE[0] == ' ' && WHITESPACE[1] == '\t' && WHITESPACE[2] == '\n' && WHITESPACE[3] == '\U{0B}' &&
           WHITESPACE[4] == '\U{0C}' && WHITESPACE[5] == '\r';
  }

  lemma CodesBetween(c: char)
    requires '\t' <= c <= '\r'
    ensures c == '\t' || c == '\n' || c == '\U{0B}' || c == '\U{0C}' || c == '\r'
  {
  }

  // ---------------------------------------------------------------- splitting

  /** The length of the longest match of the pattern (\\,|[^,])+ at the front, trying the escaped comma first. */
  function MatchLength(s: string): (n: nat)
    ensures n <= |s|
  {
    if s == "" then 0
    else if Escaped(s) then 2 + MatchLength(s[2..])
    else if s[0] != ',' then 1 + MatchLength(s[1..])
    else 0
  }

  predicate Escaped(s: string) {
    |s| >= 2 && s[0] == '\\' && s[1] == ','
  }

  /** All matches, each search going on where the last match ended. */
  function Tokens(s: string): seq<string>
    decreases |s|
  {
    if s == "" then []
    else
      var n := MatchLength(s);
      if n == 0 then Tokens(s[1..]) else [s[..n]] + Tokens(s[n..])
  }

  /** A comma that separates. */
  predicate Bare(s: string, i: int) {
    0 <= i < |s| && s[i] == ',' && (i == 0 || s[i - 1] != '\\')
  }

  predicate NoBareComma(s: string) {
    forall i :: 0 <= i < |s| ==> !Bare(s, i)
  }

  function Join(words: seq<string>): string {
    if |words| == 0 then ""
    else if |words| == 1 then words[0]
    else words[0] + "," + Join(words[1..])
  }

  predicate EndsInBackslash(s: string) {
    s != "" && s[|s| - 1] == '\\'
  }

  /** `segments` is `s` cut at its bare commas and nowhere else. */
  predicate IsCutOf(segments: seq<string>, s: string) {
    segments != [] && Join(segments) == s &&
    (forall k :: 0 <= k < |segments| ==> NoBareComma(segments[k])) &&
    (forall k :: 0 <= k < |segments| - 1 ==> !EndsInBackslash(segments[k]))
  }

  function WithoutEmpty(segments: seq<string>): seq<string> {
    if segments == [] then []
    else (if segments[0] == "" then [] else [segments[0]]) + WithoutEmpty(segments[1..])
  }

  lemma {:induction false} MatchStopsAtBareComma(s: string)
    ensures var n := MatchLength(s);
            (forall i :: 0 <= i < n ==> !Bare(s, i)) && (n < |s| ==> Bare(s, n))
  {
    if s != "" && (Escaped(s) || s[0] != ',') {
      var k := if Escaped(s) then 2 else 1;
      var rest := s[k..];
      MatchStopsAtBareComma(rest);
      forall i | k <= i < |s| ensures Bare(s, i) <==> Bare(rest, i - k) {
        assert rest[i - k] == s[i] && (i > k ==> rest[i - k - 1] == s[i - 1]);
      }
    }
  }

  /** The tokens are the non-empty pieces of the string cut at its bare commas. */
  lemma {:induction false} TokensAreCut(s: string) returns (segments: seq<string>)
    ensures IsCutOf(segments, s) && Tokens(s) == WithoutEmpty(segments)
    decreases |s|
  {
    var n := MatchLength(s);
    FirstMatch(s);
    if n == |s| {
      segments := [s];
      assert s[..n] == s && (s != "" ==> Tokens(s[n..]) == []);
    } else {
      TokensAfterMatch(s, n);
      var others := TokensAreCut(s[n + 1..]);
      segments := [s[..n]] + others;
      assert segments[1..] == others;
    }
  }

  lemma FirstMatch(s: string)
    ensures var n := MatchLength(s);
            NoBareComma(s[..n]) &&
            (n < |s| ==> s[n] == ',' && !EndsInBackslash(s[..n]) && s == s[..n] + "," + s[n + 1..])
  {
    var n := MatchLength(s);
    MatchStopsAtBareComma(s);
    PrefixHasNoBareComma(s, n);
    if n < |s| {
      assert Bare(s, n);
      CutAt(s, n);
    }
  }

  lemma PrefixHasNoBareComma(s: string, n: nat)
    requires n <= |s| && forall i :: 0 <= i < n ==> !Bare(s, i)
    ensures NoBareComma(s[..n])
  {
    forall i | 0 <= i < n ensures !Bare(s[..n], i) {
      assert !Bare(s, i);
    }
  }

  lemma CutAt(s: string, n: nat)
    requires n < |s|
    ensures s == s[..n] + [s[n]] + s[n + 1..]
  {
  }

  lemma TokensStep(s: string)
    ensures Tokens(s) ==
            (if MatchLength(s) == 0 then [] else [s[..MatchLength(s)]]) + Tokens(s[MatchLength(s)..])
  {
    assert s[0..] == s;
  }

  lemma TokensAfterMatch(s: string, n: nat)
    requires n == MatchLength(s) < |s| && s[n] == ','
    ensures Tokens(s) == (if n == 0 then [] else [s[..n]]) + Tokens(s[n + 1..])
  {
    TokensStep(s);
    assert s[n..][1..] == s[n + 1..];
  }

  /** There is only one way to cut a string. */
  lemma {:induction false} CutIsUnique(a: seq<string>, b: seq<string>, s: string)
    requires IsCutOf(a, s) && IsCutOf(b, s)
    ensures a == b
  {
    FirstPiece(a, s);
    FirstPiece(b, s);
    assert s[..|a[0]|] == a[0] && s[..|b[0]|] == b[0];
    if |a| > 1 && |b| > 1 {
      assert s[|a[0]| + 1..] == Join(a[1..]) && s[|b[0]| + 1..] == Join(b[1..]);
      CutIsUnique(a[1..], b[1..], s[|a[0]| + 1..]);
      assert a == [a[0]] + a[1..] && b == [b[0]] + b[1..];
    }
  }

  lemma FirstPiece(segments: seq<string>, s: string)
    requires IsCutOf(segments, s)
    ensures segments[0] <= s && |segments[0]| == MatchLength(s) && (|segments[0]| == |s| <==> |segments| == 1)
  {
    var n := |segments[0]|;
    MatchStopsAtBareComma(s);
    assert forall i :: 0 <= i < n ==> (Bare(segments[0], i) <==> Bare(s, i));
    if |segments| > 1 {
      assert Bare(s, n);
    }
  }

  // ---------------------------------------------------------------- replacing

  /** Every occurrence from the left; what was put in is not looked at again. */
  function Replaced(s: string, what: string, with: string): string
    requires what != ""
  {
    if s == "" then ""
    else if what <= s then with + Replaced(s[|what|..], what, with)
    else [s[0]] + Replaced(s[1..], what, with)
  }

  /** `pos` is the first occurrence at or after `from`, or the length of the string. */
  predicate Found(s: string, what: string, from: nat, pos: nat) {
    from <= pos <= |s| && (pos < |s| ==> what <= s[pos..]) && forall i :: from <= i < pos ==> !(what <= s[i..])
  }

  method Find(s: string, what: string, from: nat) returns (pos: nat)
    requires what != "" && from <= |s|
    ensures Found(s, what, from, pos)
  {
    pos := from;
    while pos < |s| && !(what <= s[pos..])
      invariant from <= pos <= |s|
      invariant forall i :: from <= i < pos ==> !(what <= s[i..])
    {
      pos := pos + 1;
    }
  }

  lemma {:induction false} ReplacedAfterGap(s: string, what: string, with: string, k: nat)
    requires what != "" && k <= |s|
    requires forall i :: 0 <= i < k ==> !(what <= s[i..])
    ensures Replaced(s, what, with) == s[..k] + Replaced(s[k..], what, with)
  {
    if k == 0 {
      assert s[k..] == s;
    } else {
      assert s[0..] == s;
      assert forall i :: 0 <= i < k - 1 ==> s[1..][i..] == s[i + 1..];
      ReplacedAfterGap(s[1..], what, with, k - 1);
      assert s[1..][k - 1..] == s[k..];
      assert s[..k] == [s[0]] + s[1..][..k - 1];
    }
  }

  /** Put `with` in the place of `length` characters. */
  function Spliced(s: string, at: nat, length: nat, with: string): (r: string)
    requires at + length <= |s|
    ensures at + |with| <= |r| && r[..at + |with|] == s[..at] + with && r[at + |with|..] == s[at + length..]
  {
    s[..at] + with + s[at + length..]
  }

  /** Up to `done` the replacement is made, and making it in the rest as well gives `whole`. */
  predicate ReplacedUpTo(s: string, what: string, with: string, done: nat, whole: string)
    requires what != ""
  {
    done <= |s| && s[..done] + Replaced(s[done..], what, with) == whole
  }

  lemma ReplacedFromFound(s: string, what: string, with: string, done: nat, pos: nat)
    requires what != "" && Found(s, what, done, pos)
    ensures Replaced(s[done..], what, with) ==
            s[done..pos] + if pos == |s| then "" else with + Replaced(s[pos + |what|..], what, with)
  {
    var rest, k := s[done..], pos - done;
    assert forall i :: 0 <= i < k ==> rest[i..] == s[done + i..];
    ReplacedAfterGap(rest, what, with, k);
    assert rest[k..] == s[pos..] && rest[..k] == s[done..pos];
    if pos < |s| {
      assert s[pos..][|what|..] == s[pos + |what|..];
    }
  }

  lemma ReplacedOnce(s: string, what: string, with: string, done: nat, pos: nat, whole: string)
    requires what != "" && ReplacedUpTo(s, what, with, done, whole) && Found(s, what, done, pos)
    ensures pos == |s| ==> s == whole
    ensures pos < |s| ==> ReplacedUpTo(Spliced(s, pos, |what|, with), what, with, pos + |with|, whole)
  {
    ReplacedFromFound(s, what, with, done, pos);
    assert s[..pos] == s[..done] + s[done..pos];
    if pos < |s| {
      var tail := Replaced(s[pos + |what|..], what, with);
      assert s[..pos] + with + tail == s[..done] + (s[done..pos] + (with + tail));
    }
  }

  method ReplaceAll(inout: string, what: string, with: string) returns (s: string)
    requires what != ""
    ensures s == Replaced(inout, what, with)
  {
    s := inout;
    assert inout[0..] == inout;
    var pos: nat := Find(s, what, 0);
    ghost var done: nat := 0;
    while pos < |s|
      invariant ReplacedUpTo(s, what, with, done, Replaced(inout, what, with)) && Found(s, what, done, pos)
      decreases |s| - done
    {
      ReplacedOnce(s, what, with, done, pos, Replaced(inout, what, with));
      s := Spliced(s, pos, |what|, with);
      pos := pos + |with|;
      done := pos;
      pos := Find(s, what, pos);
    }
    ReplacedOnce(s, what, with, done, pos, Replaced(inout, what, with));
  }

  // ---------------------------------------------------------------- trimming

  /** The position of the first character not in `any`, from `from` on. */
  function FirstNot(s: string, any: string, from: nat): (pos: nat)
    requires from <= |s|
    ensures from <= pos <= |s| && (pos < |s| ==> s[pos] !in any)
    ensures forall i :: from <= i < pos ==> s[i] in any
    decreases |s| - from
  {
    if from < |s| && s[from] in any then FirstNot(s, any, from + 1) else from
  }

  /** One past the position of the last character not in `any`, among the first `to`. */
  function LastNot(s: string, any: string, to: nat): (pos: nat)
    requires to <= |s|
    ensures pos <= to && (pos > 0 ==> s[pos - 1] !in any)
    ensures forall i :: pos <= i < to ==> s[i] in any
  {
    if to > 0 && s[to - 1] in any then LastNot(s, any, to - 1) else to
  }

  function Trim(s: string, any: string): string {
    var t := s[FirstNot(s, any, 0)..];
    t[..LastNot(t, any, |t|)]
  }

  predicate Trimmed(s: string, any: string) {
    s != "" ==> s[0] !in any && s[|s| - 1] !in any
  }

  /** Trimming cuts a prefix and a suffix of the given characters, and nothing else is left to cut. */
  lemma TrimMeaning(s: string, any: string) returns (left: nat, right: nat)
    ensures left <= right <= |s| && Trim(s, any) == s[left..right] && Trimmed(Trim(s, any), any)
    ensures forall i :: 0 <= i < left || right <= i < |s| ==> s[i] in any
  {
    left := FirstNot(s, any, 0);
    var t := s[left..];
    right := left + LastNot(t, any, |t|);
    forall i | right <= i < |s| ensures s[i] in any {
      assert s[i] == t[i - left];
    }
  }

  lemma TrimIdentityIff(s: string, any: string)
    ensures Trim(s, any) == s <==> Trimmed(s, any)
  {
    var left, right := TrimMeaning(s, any);
    if Trimmed(s, any) && s != "" {
      assert left == 0 && right == |s|;
    }
  }

  method TrimCopy(text: string, any: string) returns (s: string)
    ensures s == Trim(text, any)
  {
    s := text;
    var pos := 0;
    while pos < |s| && s[pos] in any
      invariant 0 <= pos <= |s| && FirstNot(s, any, pos) == FirstNot(s, any, 0)
    {
      pos := pos + 1;
    }
    s := s[pos..];
    pos := |s|;
    while pos > 0 && s[pos - 1] in any
      invariant 0 <= pos <= |s| && LastNot(s, any, pos) == LastNot(s, any, |s|)
    {
      pos := pos - 1;
    }
    s := s[..pos];
  }

  // ---------------------------------------------------------------- the parser

  function Unescape(s: string): string {
    Replaced(s, "\\,", ",")
  }

  function Word(token: string): string {
    Trim(Unescape(token), WHITESPACE)
  }

  function Words(tokens: seq<string>): (words: seq<string>)
    ensures |words| == |tokens| && forall i :: 0 <= i < |tokens| ==> words[i] == Word(tokens[i])
  {
    seq(|tokens|, i requires 0 <= i < |tokens| => Word(tokens[i]))
  }

  function Parse(commandString: string): seq<string> {
    Words(Tokens(commandString))
  }

  /** The command of a step, from the value of its JSON field. */
  method LoadCommand(commandString: string) returns (command: seq<string>)
    ensures command == Parse(commandString)
  {
    command := [];
    if commandString != "" {
      var tokens := Tokens(commandString);
      for i := 0 to |tokens|
        invariant |command| == i && forall k :: 0 <= k < i ==> command[k] == Word(tokens[k])
      {
        var token := ReplaceAll(tokens[i], "\\,", ",");
        token := TrimCopy(token, WHITESPACE);
        command := command + [token];
      }
    }
  }

  /** There is a first word and it holds no white space. */
  method Validate(command: seq<string>) returns (valid: bool)
    ensures valid <==> command != [] && forall c :: c in command[0] ==> !IsSpace(c)
  {
    if command == [] {
      return false;
    }
    var first := command[0];
    for i := 0 to |first|
      invariant forall k :: 0 <= k < i ==> !IsSpace(first[k])
    {
      if IsSpace(first[i]) {
        assert first[i] in first;
        return false;
      }
    }
    return true;
  }

  // ---------------------------------------------------------------- the round trip

  function Escape(word: string): string {
    if word == "" then ""
    else (if word[0] == ',' then "\\," else [word[0]]) + Escape(word[1..])
  }

  function EscapeAll(words: seq<string>): (escaped: seq<string>)
    ensures |escaped| == |words|
  {
    seq(|words|, i requires 0 <= i < |words| => Escape(words[i]))
  }

  function Encode(words: seq<string>): string {
    Join(EscapeAll(words))
  }

  lemma {:induction false} UnescapeEscape(word: string)
    ensures Unescape(Escape(word)) == word
  {
    if word != "" {
      var rest := Escape(word[1..]);
      UnescapeEscape(word[1..]);
      EscapeStart(word[1..]);
      if word[0] == ',' {
        assert Escape(word)[2..] == rest;
        assert "\\," <= Escape(word);
      } else {
        assert Escape(word)[1..] == rest;
        assert !Escaped(Escape(word));
      }
    }
  }

  predicate StartsWithComma(s: string) {
    s != "" && s[0] == ','
  }

  lemma EscapeStart(word: string)
    ensures Escape(word) == "" <==> word == ""
    ensures word != "" ==> Escape(word)[0] != ','
  {
  }

  lemma {:induction false} EscapeBackslash(word: string)
    ensures Escape(word + "\\") == Escape(word) + "\\"
  {
    if word != "" {
      EscapeBackslash(word[1..]);
      assert (word + "\\")[1..] == word[1..] + "\\";
    }
  }

  /** A match runs through an escaped word, unless its last backslash meets a comma. */
  lemma {:induction false} MatchThroughWord(word: string, rest: string)
    requires EndsInBackslash(word) ==> !StartsWithComma(rest)
    ensures MatchLength(Escape(word) + rest) == |Escape(word)| + MatchLength(rest)
  {
    var s := Escape(word) + rest;
    if word == "" {
      assert s == rest;
    } else {
      MatchThroughWord(word[1..], rest);
      EscapeStart(word[1..]);
      var k := if word[0] == ',' then 2 else 1;
      assert s[k..] == Escape(word[1..]) + rest;
      if word[0] != ',' && word[0] == '\\' {
        assert !Escaped(s);
      }
    }
  }

  /** The backslash at the end of a word takes the separator in. */
  lemma MatchPastSeparator(word: string, rest: string)
    requires EndsInBackslash(word)
    ensures MatchLength(Escape(word) + "," + rest) == |Escape(word)| + 1 + MatchLength(rest)
  {
    var short := word[..|word| - 1];
    assert word == short + "\\";
    EscapeBackslash(short);
    var tail := "\\," + rest;
    assert Escape(word) + "," + rest == Escape(short) + tail;
    MatchThroughWord(short, tail);
    assert tail[2..] == rest;
  }

  /** No word is empty and none but the last ends in a backslash. */
  predicate Separable(words: seq<string>) {
    (forall k :: 0 <= k < |words| ==> words[k] != "") &&
    (forall k :: 0 <= k < |words| - 1 ==> !EndsInBackslash(words[k]))
  }

  lemma EncodeStep(words: seq<string>)
    requires |words| > 1
    ensures Encode(words) == Escape(words[0]) + "," + Encode(words[1..])
  {
    assert EscapeAll(words)[1..] == EscapeAll(words[1..]);
  }

  /** Separable words come out as they went in; otherwise words are lost. */
  lemma {:induction false} TokensOfEncoded(words: seq<string>)
    ensures if Separable(words) then Tokens(Encode(words)) == EscapeAll(words)
            else |Tokens(Encode(words))| < |words|
  {
    if |words| == 1 {
      SeparatedWord(words[0], "");
      assert Escape(words[0]) + "" == Escape(words[0]);
    } else if |words| > 1 {
      EncodeStep(words);
      var others := Encode(words[1..]);
      TokensOfEncoded(words[1..]);
      assert words == [words[0]] + words[1..];
      if EndsInBackslash(words[0]) {
        MergedWord(words[0], words[1..]);
      } else {
        assert Encode(words) == Escape(words[0]) + ("," + others);
        SeparatedWord(words[0], "," + others);
        assert ("," + others)[1..] == others;
        assert Separable(words) <==> words[0] != "" && Separable(words[1..]);
      }
    }
  }

  lemma SeparatedWord(word: string, rest: string)
    requires rest == "" || (StartsWithComma(rest) && !EndsInBackslash(word))
    ensures Tokens(Escape(word) + rest) ==
            (if word == "" then [] else [Escape(word)]) + if rest == "" then [] else Tokens(rest[1..])
  {
    var e := Escape(word);
    var s := e + rest;
    MatchThroughWord(word, rest);
    EscapeStart(word);
    assert s[..|e|] == e && s[|e|..] == rest;
    TokensStep(s);
  }

  lemma MergedWord(word: string, words: seq<string>)
    requires EndsInBackslash(word) && words != []
    requires if Separable(words) then Tokens(Encode(words)) == EscapeAll(words)
             else |Tokens(Encode(words))| < |words|
    ensures |Tokens(Escape(word) + "," + Encode(words))| <= |words|
  {
    var head, rest := Escape(word) + ",", Encode(words);
    MatchPastSeparator(word, rest);
    DropInto(head, rest, MatchLength(rest));
    MatchRunsOn(head + rest, |head|, rest, MatchLength(rest));
    if Separable(words) {
      EncodedStart(words);
    }
  }

  /** A match that runs on into `rest` makes one token out of what would be two. */
  lemma MatchRunsOn(s: string, before: nat, rest: string, n: nat)
    requires before > 0 && n == MatchLength(rest) && MatchLength(s) == before + n
    requires s[before + n..] == rest[n..]
    ensures |Tokens(s)| == |Tokens(rest)| + if n == 0 then 1 else 0
  {
    TokenCount(s);
    TokenCount(rest);
  }

  lemma TokenCount(s: string)
    ensures |Tokens(s)| == (if MatchLength(s) == 0 then 0 else 1) + |Tokens(s[MatchLength(s)..])|
  {
    TokensStep(s);
  }

  lemma DropInto(head: string, rest: string, n: nat)
    requires n <= |rest|
    ensures (head + rest)[|head| + n..] == rest[n..]
  {
  }

  lemma EncodedStart(words: seq<string>)
    requires words != [] && words[0] != ""
    ensures MatchLength(Encode(words)) > 0
  {
    EscapeStart(words[0]);
    if |words| > 1 {
      EncodeStep(words);
    }
    assert Encode(words)[0] == Escape(words[0])[0];
  }

  /**
   Escaping the commas of the words and joining them with commas gives the words back from the parser exactly if the
   words are not empty, begin and end without white space, and none but the last ends in a backslash.
   */
  lemma RoundTripIff(words: seq<string>)
    ensures Parse(Encode(words)) == words <==>
            Separable(words) && forall k :: 0 <= k < |words| ==> Trimmed(words[k], WHITESPACE)
  {
    TokensOfEncoded(words);
    if Separable(words) {
      forall k | 0 <= k < |words|
        ensures Parse(Encode(words))[k] == Trim(words[k], WHITESPACE)
        ensures Trim(words[k], WHITESPACE) == words[k] <==> Trimmed(words[k], WHITESPACE)
      {
        UnescapeEscape(words[k]);
        TrimIdentityIff(words[k], WHITESPACE);
      }
    }
  }

  /** What the parser returns is always trimmed, so it survives another round exactly if it is separable. */
  lemma ParseAgainIff(commandString: string)
    ensures var words := Parse(commandString);
            Parse(Encode(words)) == words <==> Separable(words)
  {
    var words := Parse(commandString);
    RoundTripIff(words);
    forall k | 0 <= k < |words| ensures Trimmed(words[k], WHITESPACE) {
      var left, right := TrimMeaning(Unescape(Tokens(commandString)[k]), WHITESPACE);
    }
  }
}
