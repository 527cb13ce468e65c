/**
 The log shim (logshim/logshim.go): a writer that hands complete lines to a logger and keeps the
 unfinished rest until more text, a timer or Close flushes it.
 */
module LogShim {
  import opened Bytes
  import opened Wrappers
  import opened Sequences

  type Text = seq<Byte>

  const NEWLINE: Byte := 10

  // ---- Lines --------------------------------------------------------------

  /** `bytes.Split(t, "\n")`: the segments between newlines, one more than there are newlines. */
  function Split(t: Text): (segments: seq<Text>)
    ensures |segments| > 0
  {
    if t == [] then [[]] else Extend(Split(Init(t)), Last(t))
  }

  /** The segments after one more byte. */
  function Extend(segments: seq<Text>, c: Byte): (extended: seq<Text>)
    requires segments != []
    ensures |extended| > 0
  {
    if c == NEWLINE then segments + [[]] else Init(segments) + [Last(segments) + [c]]
  }

  function NonEmpty(lines: seq<Text>): seq<Text> {
    if lines == [] then []
    else NonEmpty(Init(lines)) + if Last(lines) == [] then [] else [Last(lines)]
  }

  function Flatten(texts: seq<Text>): Text {
    if texts == [] then [] else Flatten(Init(texts)) + Last(texts)
  }

  function WithoutNewlines(t: Text): Text {
    if t == [] then [] else WithoutNewlines(Init(t)) + if Last(t) == NEWLINE then [] else [Last(t)]
  }

  // ---- The shim -----------------------------------------------------------

  /** The shim as a value: the buffered rest and the lines handed to the logger so far. */
  datatype State = State(partial: Text, lines: seq<Text>)

  /** What a write does to the state, in terms of the segments of the whole text at hand. */
  function Written(s: State, buf: Text): State {
    var segments := Split(s.partial + buf);
    State(Last(segments), s.lines + NonEmpty(Init(segments)))
  }

  function Flushed(s: State): State {
    State([], s.lines + NonEmpty([s.partial]))
  }

  class Shim {
    var partial: Text
    var lines: seq<Text>

    ghost function View(): State
      reads this
    {
      State(partial, lines)
    }

    constructor ()
      ensures View() == State([], [])
    {
      partial, lines := [], [];
    }

    /**
     The source looks at the last byte of the text at hand without asking whether there is one: an empty write
     with nothing buffered panics, which is `None` here.
     */
    method Write(buf: Text) returns (n: Option<nat>)
      modifies this
      ensures n.None? <==> old(partial) == [] && buf == []
      ensures n.Some? ==> n.value == |buf| && View() == Written(old(View()), buf)
      ensures n.None? ==> View() == old(View())
    {
      var text := partial + buf;
      var segments := Split(text);
      if |text| == 0 {
        return None;
      }
      if text[|text| - 1] != NEWLINE {
        partial := segments[|segments| - 1];
        segments := segments[..|segments| - 1];
        Emit(segments);
      } else {
        partial := [];
        Emit(segments);
      }
      n := Some(|buf|);
    }

    /** Hands every non-empty line to the logger. */
    method Emit(segments: seq<Text>)
      modifies this`lines
      ensures lines == old(lines) + NonEmpty(segments)
    {
      assert segments[..0] == [];
      for i := 0 to |segments|
        invariant lines == old(lines) + NonEmpty(segments[..i])
      {
        assert Init(segments[..i + 1]) == segments[..i];
        if |segments[i]| > 0 {
          lines := lines + [segments[i]];
        }
      }
      assert segments[..|segments|] == segments;
    }

    /** Called by the timer and, once, by Close. */
    method Flush()
      modifies this
      ensures View() == Flushed(old(View()))
    {
      var line := partial;
      partial := [];
      if |line| > 0 {
        lines := lines + [line];
      }
      assert Init([line]) == [] && NonEmpty([]) == [];
    }
  }

  // ---- What the logger gets -----------------------------------------------

  predicate OneLine(t: Text) {
    NEWLINE !in t
  }

  lemma {:induction false} SegmentsAreLines(t: Text)
    ensures forall i :: 0 <= i < |Split(t)| ==> OneLine(Split(t)[i])
    decreases |t|
  {
    if t != [] {
      SegmentsAreLines(Init(t));
      assert forall i :: 0 <= i < |Split(Init(t))| - 1 ==> Init(Split(Init(t)))[i] == Split(Init(t))[i];
    }
  }

  /** The segments with a newline between each two. */
  function Join(segments: seq<Text>): Text
    requires segments != []
  {
    if |segments| == 1 then segments[0] else Join(Init(segments)) + [NEWLINE] + Last(segments)
  }

  /** Segments without newlines that join to t: there is only one way to split. */
  lemma {:induction false} JoinSplit(t: Text)
    ensures Join(Split(t)) == t
    decreases |t|
  {
    if t != [] {
      JoinSplit(Init(t));
      assert Init(t) + [Last(t)] == t;
      JoinExtend(Split(Init(t)), Last(t));
    }
  }

  lemma JoinExtend(segments: seq<Text>, c: Byte)
    requires segments != []
    ensures Join(Extend(segments, c)) == Join(segments) + [c]
  {
    var extended := Extend(segments, c);
    if c == NEWLINE {
      assert Init(extended) == segments;
    } else if |segments| > 1 {
      assert Init(extended) == Init(segments);
    }
  }

  lemma {:induction false} SplitOneLine(t: Text)
    requires OneLine(t)
    ensures Split(t) == [t]
    decreases |t|
  {
    if t != [] {
      SplitOneLine(Init(t));
      assert Init(t) + [Last(t)] == t;
    }
  }

  /** Splitting can start again from the unfinished segment. */
  lemma {:induction false} SplitAppend(a: Text, b: Text)
    ensures Split(a + b) == Init(Split(a)) + Split(Last(Split(a)) + b)
    decreases |b|
  {
    var head, tail := Init(Split(a)), Last(Split(a));
    if b == [] {
      SegmentsAreLines(a);
      SplitOneLine(tail);
      assert a + b == a && tail + b == tail;
    } else {
      SplitAppend(a, Init(b));
      assert Init(a + b) == a + Init(b) && Init(tail + b) == tail + Init(b);
      ExtendTail(head, Split(tail + Init(b)), Last(b));
    }
  }

  lemma ExtendTail(head: seq<Text>, rest: seq<Text>, c: Byte)
    requires rest != []
    ensures Extend(head + rest, c) == head + Extend(rest, c)
  {
    assert Init(head + rest) == head + Init(rest) && Last(head + rest) == Last(rest);
  }

  lemma {:induction false} NonEmptyAppend(a: seq<Text>, b: seq<Text>)
    ensures NonEmpty(a + b) == NonEmpty(a) + NonEmpty(b)
    decreases |b|
  {
    if b == [] {
      assert a + b == a;
    } else {
      NonEmptyAppend(a, Init(b));
      assert Init(a + b) == a + Init(b);
    }
  }

  datatype Op = Write(buf: Text) | Flush

  /** One call; None is the panic of an empty write that meets an empty buffer. */
  function Apply(s: State, op: Op): Option<State> {
    match op
    case Write(buf) => if s.partial + buf == [] then None else Some(Written(s, buf))
    case Flush => Some(Flushed(s))
  }

  function Run(ops: seq<Op>): Option<State> {
    if ops == [] then Some(State([], []))
    else
      var s := Run(Init(ops));
      if s.None? then None else Apply(s.value, Last(ops))
  }

  /** All text written, in order. */
  function Stream(ops: seq<Op>): Text {
    if ops == [] then [] else Stream(Init(ops)) + if Last(ops).Write? then Last(ops).buf else []
  }

  // ---- When a write panics ------------------------------------------------

  /** The text written since the last flush. */
  function SinceFlush(ops: seq<Op>): Text {
    if ops == [] || Last(ops).Flush? then [] else SinceFlush(Init(ops)) + Last(ops).buf
  }

  predicate Unfinished(t: Text) {
    t != [] && Last(t) != NEWLINE
  }

  /** Every empty write comes while the text since the last flush stands in the middle of a line. */
  predicate Safe(ops: seq<Op>) {
    ops == [] || (Safe(Init(ops)) && (Last(ops) == Write([]) ==> Unfinished(SinceFlush(Init(ops)))))
  }

  /** What is buffered is the unfinished line of the text since the last flush. */
  lemma {:induction false} BufferedIsUnfinished(ops: seq<Op>)
    requires Run(ops).Some?
    ensures Run(ops).value.partial == Last(Split(SinceFlush(ops)))
    decreases |ops|
  {
    if ops != [] && Last(ops).Write? {
      BufferedIsUnfinished(Init(ops));
      SplitAppend(SinceFlush(Init(ops)), Last(ops).buf);
    }
  }

  /** No call panics if and only if every empty write comes in the middle of a line. */
  lemma {:induction false} PanicsExactlyWhenUnsafe(ops: seq<Op>)
    ensures Run(ops).Some? <==> Safe(ops)
    decreases |ops|
  {
    if ops != [] {
      PanicsExactlyWhenUnsafe(Init(ops));
      if Run(Init(ops)).Some? {
        BufferedIsUnfinished(Init(ops));
      }
    }
  }

  // ---- Whole streams ------------------------------------------------------

  /** Between flushes the shim holds the unfinished segment and has logged the non-empty finished ones. */
  lemma {:induction false} WritesSplitTheStream(ops: seq<Op>)
    requires Run(ops).Some? && forall i :: 0 <= i < |ops| ==> ops[i].Write?
    ensures Run(ops).value == State(Last(Split(Stream(ops))), NonEmpty(Init(Split(Stream(ops)))))
    decreases |ops|
  {
    if ops != [] {
      var t, buf := Stream(Init(ops)), Last(ops).buf;
      WritesSplitTheStream(Init(ops));
      SplitAppend(t, buf);
      var head, rest := Init(Split(t)), Split(Last(Split(t)) + buf);
      assert Init(head + rest) == head + Init(rest) && Last(head + rest) == Last(rest);
      NonEmptyAppend(head, Init(rest));
    }
  }

  /**
   However a text is cut into writes none of which panics, once it is closed the logger got exactly its non-empty
   lines, in order; the cuts leave no trace.
   */
  lemma LinesAreExactlyTheSegments(ops: seq<Op>)
    requires Run(ops).Some? && forall i :: 0 <= i < |ops| ==> ops[i].Write?
    ensures Flushed(Run(ops).value) == State([], NonEmpty(Split(Stream(ops))))
  {
    WritesSplitTheStream(ops);
    var segments := Split(Stream(ops));
    assert segments == Init(segments) + [Last(segments)];
    NonEmptyAppend(Init(segments), [Last(segments)]);
  }

  lemma {:induction false} FlattenAppend(a: seq<Text>, b: seq<Text>)
    ensures Flatten(a + b) == Flatten(a) + Flatten(b)
    decreases |b|
  {
    if b == [] {
      assert a + b == a;
    } else {
      FlattenAppend(a, Init(b));
      assert Init(a + b) == a + Init(b);
    }
  }

  lemma {:induction false} FlattenNonEmpty(a: seq<Text>)
    ensures Flatten(NonEmpty(a)) == Flatten(a)
    decreases |a|
  {
    if a != [] {
      FlattenNonEmpty(Init(a));
      if Last(a) != [] {
        assert Init(NonEmpty(Init(a)) + [Last(a)]) == NonEmpty(Init(a));
      } else {
        assert NonEmpty(a) == NonEmpty(Init(a));
      }
    }
  }

  lemma {:induction false} FlattenSplit(t: Text)
    ensures Flatten(Split(t)) == WithoutNewlines(t)
    decreases |t|
  {
    if t == [] {
      assert Flatten(Init([[]])) == [];
    } else {
      FlattenSplit(Init(t));
      var before := Split(Init(t));
      if Last(t) == NEWLINE {
        assert Init(before + [[]]) == before;
      } else {
        var last := Last(before) + [Last(t)];
        assert Init(Init(before) + [last]) == Init(before);
        assert Flatten(Split(t)) == Flatten(Init(before)) + Last(before) + [Last(t)];
      }
    }
  }

  lemma {:induction false} WithoutNewlinesAppend(a: Text, b: Text)
    ensures WithoutNewlines(a + b) == WithoutNewlines(a) + WithoutNewlines(b)
    decreases |b|
  {
    if b == [] {
      assert a + b == a;
    } else {
      WithoutNewlinesAppend(a, Init(b));
      assert Init(a + b) == a + Init(b);
    }
  }

  lemma {:induction false} OneLineKept(t: Text)
    requires OneLine(t)
    ensures WithoutNewlines(t) == t
    decreases |t|
  {
    if t != [] {
      var head, c := Init(t), Last(t);
      assert t == head + [c] && c in t;
      OneLineKept(head);
    }
  }

  /** What was logged and what is buffered is `text` without its newlines; the buffer holds no newline. */
  predicate Accounts(s: State, text: Text) {
    Flatten(s.lines) + s.partial == WithoutNewlines(text) && OneLine(s.partial)
  }

  lemma WriteAccounts(s: State, text: Text, buf: Text)
    requires Accounts(s, text)
    ensures Accounts(Written(s, buf), text + buf)
  {
    var t := s.partial + buf;
    var done, last := Init(Split(t)), Last(Split(t));
    SegmentsAreLines(t);
    calc {
      Flatten(Written(s, buf).lines) + last;
      { FlattenAppend(s.lines, NonEmpty(done)); }
      (Flatten(s.lines) + Flatten(NonEmpty(done))) + last;
      { FlattenNonEmpty(done); }
      Flatten(s.lines) + Flatten(Split(t));
      { FlattenSplit(t); WithoutNewlinesAppend(s.partial, buf); OneLineKept(s.partial); }
      Flatten(s.lines) + (s.partial + WithoutNewlines(buf));
      (Flatten(s.lines) + s.partial) + WithoutNewlines(buf);
      { WithoutNewlinesAppend(text, buf); }
      WithoutNewlines(text + buf);
    }
  }

  lemma FlushAccounts(s: State, text: Text)
    requires Accounts(s, text)
    ensures Accounts(Flushed(s), text)
  {
    FlattenAppend(s.lines, NonEmpty([s.partial]));
    FlattenNonEmpty([s.partial]);
    assert Flatten(Init([s.partial])) == [];
    assert Flatten([s.partial]) == s.partial;
  }

  /**
   With the timer flushing at arbitrary points between writes, lines may be cut, but as long as no write panics no
   byte is lost, added or reordered.
   */
  lemma {:induction false} FlushesLoseNothing(ops: seq<Op>)
    requires Run(ops).Some?
    ensures Accounts(Run(ops).value, Stream(ops))
    ensures Flatten(Flushed(Run(ops).value).lines) == WithoutNewlines(Stream(ops))
    decreases |ops|
  {
    if ops != [] {
      FlushesLoseNothing(Init(ops));
      var before := Run(Init(ops)).value;
      match Last(ops)
      case Write(buf) => WriteAccounts(before, Stream(Init(ops)), buf);
      case Flush =>
        FlushAccounts(before, Stream(Init(ops)));
        assert Stream(ops) == Stream(Init(ops));
    }
    FlushAccounts(Run(ops).value, Stream(ops));
    assert Flatten(Flushed(Run(ops).value).lines) + [] == Flatten(Flushed(Run(ops).value).lines);
  }

  // ---- Empty lines and no others are left out -----------------------------

  lemma NonEmptyNext(rest: seq<Text>, line: Text)
    ensures NonEmpty(rest + [line]) == if line == [] then NonEmpty(rest) else NonEmpty(rest) + [line]
  {
    assert Init(rest + [line]) == rest;
  }

  lemma {:induction false} NonEmptyIsSubsequence(lines: seq<Text>, kept: seq<Text>)
    requires kept == NonEmpty(lines)
    ensures Subsequence(kept, lines)
    decreases |lines|
  {
    if lines != [] {
      var rest, line := Init(lines), Last(lines);
      var before := NonEmpty(rest);
      NonEmptyIsSubsequence(rest, before);
      NonEmptyNext(rest, line);
      KeptIsSubsequence(rest, line, before, lines, kept);
    }
  }

  lemma KeptIsSubsequence(rest: seq<Text>, line: Text, before: seq<Text>, lines: seq<Text>, kept: seq<Text>)
    requires Subsequence(before, rest) && lines == rest + [line] && (kept == before || kept == before + [line])
    ensures Subsequence(kept, lines)
  {
    SubsequenceExtend(before, rest, line);
  }

  lemma CountNext(lines: seq<Text>, line: Text, t: Text)
    ensures multiset(lines + [line])[t] == multiset(lines)[t] + if line == t then 1 else 0
  {
  }

  lemma {:induction false} NonEmptyKeeps(lines: seq<Text>, t: Text)
    requires t != []
    ensures multiset(NonEmpty(lines))[t] == multiset(lines)[t]
    decreases |lines|
  {
    if lines != [] {
      var rest, line := Init(lines), Last(lines);
      NonEmptyKeeps(rest, t);
      assert lines == rest + [line];
      NonEmptyNext(rest, line);
      CountNext(rest, line, t);
      CountNext(NonEmpty(rest), line, t);
    }
  }

  /** However writes and flushes alternate, no logged line is empty or holds a newline. */
  lemma {:induction false} LoggedLinesAreLines(ops: seq<Op>)
    requires Run(ops).Some?
    ensures forall i :: 0 <= i < |Run(ops).value.lines| ==> Run(ops).value.lines[i] != [] && 10 !in Run(ops).value.lines[i]
    decreases |ops|
  {
    if ops != [] {
      LoggedLinesAreLines(Init(ops));
      var s := Run(Init(ops)).value;
      match Last(ops)
      case Write(buf) =>
        SegmentsAreLines(s.partial + buf);
        NonEmptyLines(Init(Split(s.partial + buf)));
      case Flush =>
        FlushesLoseNothing(Init(ops));
        NonEmptyLines([s.partial]);
    }
  }

  lemma {:induction false} NonEmptyLines(lines: seq<Text>)
    requires forall i :: 0 <= i < |lines| ==> OneLine(lines[i])
    ensures forall i :: 0 <= i < |NonEmpty(lines)| ==> NonEmpty(lines)[i] != [] && OneLine(NonEmpty(lines)[i])
    decreases |lines|
  {
    if lines != [] {
      NonEmptyLines(Init(lines));
    }
  }

  /** Every non-empty segment of what was written and closed is logged as often as it occurs. */
  lemma EachSegmentAsOftenAsItOccurs(ops: seq<Op>, t: Text)
    requires Run(ops).Some? && (forall i :: 0 <= i < |ops| ==> ops[i].Write?) && t != []
    ensures multiset(Flushed(Run(ops).value).lines)[t] == multiset(Split(Stream(ops)))[t]
    ensures Subsequence(Flushed(Run(ops).value).lines, Split(Stream(ops)))
  {
    LinesAreExactlyTheSegments(ops);
    NonEmptyKeeps(Split(Stream(ops)), t);
    NonEmptyIsSubsequence(Split(Stream(ops)), NonEmpty(Split(Stream(ops))));
  }
}
