/** The desktop bridge's incremental parser: helper output arrives in arbitrary pieces and is
    cut into lines of progress events and one final reply. */
module HelperStream {
  import opened ByteStrings
  import opened Wrappers

  const NEWLINE: bv8 := 10
  const LIMIT := 0x10_0000

  /** What decoding one line yields; the JSON decoder itself is a parameter. */
  datatype Decoded = Malformed | Progress(update: string) | Final(reply: string)

  type Decoder = Bytes -> Decoded

  datatype Stream = Stream(buffer: Bytes, reply: Option<string>)

  const START: Stream := Stream([], None)

  /** The result of parsing: the stream's new state and the updates, or a thrown error. */
  type Outcome = Option<(Stream, seq<string>)>

  predicate Blank(line: Bytes) { forall i :: 0 <= i < |line| ==> line[i] == 32 || line[i] == 9 || line[i] == 13 }

  function FirstNewline(b: Bytes): (end: Option<nat>)
    ensures end.Some? ==> end.value < |b| && b[end.value] == NEWLINE
    ensures end.Some? ==> forall i :: 0 <= i < end.value ==> b[i] != NEWLINE
    ensures end.None? ==> forall i :: 0 <= i < |b| ==> b[i] != NEWLINE
  {
    if b == [] then None
    else if b[0] == NEWLINE then Some(0)
    else
      match FirstNewline(b[1..])
      case None => None
      case Some(k) => Some(k + 1)
  }

  /** Updates already seen, then whatever follows; an error hides them all. */
  function Onto(seen: seq<string>, rest: Outcome): Outcome {
    match rest
    case None => None
    case Some((s, updates)) => Some((s, seen + updates))
  }

  /** Take the line before the newline at end off the buffer, with the update it carries, if any. */
  function TakeLine(s: Stream, end: nat, decode: Decoder): (o: Outcome)
    requires end < |s.buffer|
    ensures o.Some? ==> o.value.0.buffer == s.buffer[end + 1..]
  {
    if end >= LIMIT || s.reply.Some? then None
    else
      var line, rest := s.buffer[..end], s.(buffer := s.buffer[end + 1..]);
      if Blank(line) then Some((rest, []))
      else
        match decode(line)
        case Malformed => None
        case Progress(update) => Some((rest, [update]))
        case Final(reply) => Some((rest.(reply := Some(reply)), []))
  }

  /** Take every complete line off the buffer. */
  function Drained(s: Stream, decode: Decoder): Outcome
    decreases |s.buffer|
  {
    match FirstNewline(s.buffer)
    case None => if |s.buffer| < LIMIT then Some((s, [])) else None
    case Some(end) =>
      match TakeLine(s, end, decode)
      case None => None
      case Some((t, update)) => Onto(update, Drained(t, decode))
  }

  function Appended(s: Stream, chunk: Bytes, decode: Decoder): Outcome {
    Drained(s.(buffer := s.buffer + chunk), decode)
  }

  lemma OntoTwice(a: seq<string>, b: seq<string>, rest: Outcome)
    ensures Onto(a, Onto(b, rest)) == Onto(a + b, rest)
    ensures Onto([], rest) == rest
  {
    if rest.Some? {
      assert a + (b + rest.value.1) == (a + b) + rest.value.1;
      assert [] + rest.value.1 == rest.value.1;
    }
  }

  class HelperParser {
    var buffer: Bytes
    var reply: Option<string>

    function View(): Stream
      reads this
    {
      Stream(buffer, reply)
    }

    constructor ()
      ensures View() == START
    {
      buffer, reply := [], None;
    }

    /** append; None is a thrown error, after which the parser is not used again. */
    method Append(chunk: Bytes, decode: Decoder) returns (updates: Option<seq<string>>)
      modifies this
      ensures match Appended(old(View()), chunk, decode)
              case None => updates.None?
              case Some((s, u)) => updates == Some(u) && View() == s
    {
      buffer := buffer + chunk;
      var u: seq<string> := [];
      ghost var goal := Drained(View(), decode);
      OntoTwice([], [], goal);
      var end := FirstNewline(buffer);
      while end.Some?
        invariant end == FirstNewline(buffer)
        invariant goal == Onto(u, Drained(View(), decode))
        decreases |buffer|
      {
        ghost var before, seen, taken := View(), u, TakeLine(View(), end.value, decode);
        if end.value >= LIMIT || reply.Some? {
          return None;
        }
        var line := buffer[..end.value];
        buffer := buffer[end.value + 1..];
        end := FirstNewline(buffer);
        if !Blank(line) {
          match decode(line) {
            case Malformed => return None;
            case Progress(update) => u := u + [update];
            case Final(r) => reply := Some(r);
          }
        }
        assert taken.Some? && View() == taken.value.0 && u == seen + taken.value.1;
        OntoTwice(seen, taken.value.1, Drained(View(), decode));
      }
      if |buffer| >= LIMIT {
        return None;
      }
      assert u + [] == u;
      return Some(u);
    }

    /** finish; None is a thrown error. */
    method Finish() returns (r: Option<string>)
      ensures r == if buffer == [] then reply else None
    {
      r := if |buffer| == 0 then reply else None;
    }
  }

  // ---------- cutting the stream does not matter ----------

  /** One append after another, the updates in order; an error ends everything. */
  function Then(first: Outcome, chunk: Bytes, decode: Decoder): Outcome {
    match first
    case None => None
    case Some((s, updates)) => Onto(updates, Appended(s, chunk, decode))
  }

  function Fed(chunks: seq<Bytes>, decode: Decoder): Outcome {
    if chunks == [] then Some((START, []))
    else Then(Fed(chunks[..|chunks| - 1], decode), chunks[|chunks| - 1], decode)
  }

  lemma NewlineIsUnique(b: Bytes, k: nat)
    requires k < |b| && b[k] == NEWLINE && forall i :: 0 <= i < k ==> b[i] != NEWLINE
    ensures FirstNewline(b) == Some(k)
  {
    var end := FirstNewline(b);
  }

  lemma ThenOnto(seen: seq<string>, first: Outcome, chunk: Bytes, decode: Decoder)
    ensures Then(Onto(seen, first), chunk, decode) == Onto(seen, Then(first, chunk, decode))
  {
    if first.Some? {
      OntoTwice(seen, first.value.1, Appended(first.value.0, chunk, decode));
    }
  }

  /** Appending two pieces at once is appending one after the other, errors included. */
  lemma {:induction false} AppendInTwo(s: Stream, a: Bytes, b: Bytes, decode: Decoder)
    ensures Appended(s, a + b, decode) == Then(Appended(s, a, decode), b, decode)
  {
    assert s.buffer + (a + b) == (s.buffer + a) + b;
    DrainInTwo(s.(buffer := s.buffer + a), b, decode);
  }

  function FollowedBy(o: Outcome, b: Bytes): Outcome {
    if o.None? then None else Some((Stream(o.value.0.buffer + b, o.value.0.reply), o.value.1))
  }

  /** Bytes after a complete line do not change how that line is taken. */
  lemma TakeLineIsLocal(s: Stream, end: nat, b: Bytes, decode: Decoder)
    requires FirstNewline(s.buffer) == Some(end)
    ensures FirstNewline(s.buffer + b) == Some(end)
    ensures TakeLine(s.(buffer := s.buffer + b), end, decode)
         == FollowedBy(TakeLine(s, end, decode), b)
  {
    NewlineIsUnique(s.buffer + b, end);
    assert (s.buffer + b)[..end] == s.buffer[..end];
    assert (s.buffer + b)[end + 1..] == s.buffer[end + 1..] + b;
  }

  lemma {:induction false} DrainInTwo(s: Stream, b: Bytes, decode: Decoder)
    ensures Appended(s, b, decode) == Then(Drained(s, decode), b, decode)
    decreases |s.buffer|
  {
    match FirstNewline(s.buffer)
    case None =>
      if |s.buffer| < LIMIT {
        OntoTwice([], [], Appended(s, b, decode));
      } else {
        LateNewline(s, b, decode);
      }
    case Some(end) =>
      TakeLineIsLocal(s, end, b, decode);
      var taken := TakeLine(s, end, decode);
      if taken.Some? {
        DrainInTwo(taken.value.0, b, decode);
        ThenOnto(taken.value.1, Drained(taken.value.0, decode), b, decode);
      }
  }

  lemma LateNewline(s: Stream, b: Bytes, decode: Decoder)
    requires |s.buffer| >= LIMIT && FirstNewline(s.buffer).None?
    ensures Appended(s, b, decode).None?
  {
    var end := FirstNewline(s.buffer + b);
    if end.Some? {
      assert forall i :: 0 <= i < |s.buffer| ==> (s.buffer + b)[i] == s.buffer[i];
    }
  }

  /** However a byte stream is cut, the parser ends where it would on the whole stream. */
  lemma {:induction false} FedIsWhole(chunks: seq<Bytes>, decode: Decoder)
    ensures Fed(chunks, decode) == Appended(START, Concat(chunks), decode)
  {
    if chunks == [] {
    } else {
      var n := |chunks| - 1;
      FedIsWhole(chunks[..n], decode);
      AppendInTwo(START, Concat(chunks[..n]), chunks[n], decode);
      ConcatLast(chunks[..n], chunks[n]);
      assert chunks[..n] + [chunks[n]] == chunks;
    }
  }

  /** What the desktop sees of a run: the reply finish returns, and the updates. */
  function Accepted(o: Outcome): Option<(string, seq<string>)> {
    match o
    case None => None
    case Some((s, updates)) => if s.buffer == [] && s.reply.Some? then Some((s.reply.value, updates)) else None
  }

  /** The bridge's request, from the pieces it reads until the end of the output and the exit
      status of the helper: every piece is appended, then finish decides. */
  method Request(chunks: seq<Bytes>, status: int, decode: Decoder) returns (r: Option<(string, seq<string>)>)
    ensures r == if status == 0 then Accepted(Fed(chunks, decode)) else None
  {
    var stream := new HelperParser();
    var updates: seq<string> := [];
    for i := 0 to |chunks|
      invariant Fed(chunks[..i], decode) == Some((stream.View(), updates))
    {
      assert chunks[..i + 1][..i] == chunks[..i];
      var more := stream.Append(chunks[i], decode);
      if more.None? {
        ErrorStays(chunks, i + 1, decode);
        return None;
      }
      updates := updates + more.value;
    }
    assert chunks[..|chunks|] == chunks;
    if status != 0 {
      return None;
    }
    var reply := stream.Finish();
    return if reply.Some? then Some((reply.value, updates)) else None;
  }

  lemma {:induction false} ErrorStays(chunks: seq<Bytes>, n: nat, decode: Decoder)
    requires n <= |chunks| && Fed(chunks[..n], decode).None?
    ensures Fed(chunks, decode).None?
    decreases |chunks|
  {
    if n < |chunks| {
      var last := |chunks| - 1;
      assert chunks[..last][..n] == chunks[..n];
      ErrorStays(chunks[..last], n, decode);
    } else {
      assert chunks[..n] == chunks;
    }
  }

  /** Two cuts of the same bytes are accepted alike, with the same reply and updates. */
  lemma CutsAgree(xs: seq<Bytes>, ys: seq<Bytes>, decode: Decoder)
    requires Concat(xs) == Concat(ys)
    ensures Fed(xs, decode) == Fed(ys, decode)
    ensures Accepted(Fed(xs, decode)) == Accepted(Fed(ys, decode))
  {
    FedIsWhole(xs, decode);
    FedIsWhole(ys, decode);
  }

  // ---------- exactly which transcripts are accepted ----------

  predicate IsLine(line: Bytes) {
    |line| < LIMIT && forall i :: 0 <= i < |line| ==> line[i] != NEWLINE
  }

  /** Lines as a helper writes them, each ended by a newline. */
  function Written(lines: seq<Bytes>): Bytes {
    if lines == [] then [] else lines[0] + [NEWLINE] + Written(lines[1..])
  }

  /** The updates of lines that are blank or progress, in order. */
  function Updates(lines: seq<Bytes>, decode: Decoder): seq<string> {
    if lines == [] then []
    else if !Blank(lines[0]) && decode(lines[0]).Progress?
    then [decode(lines[0]).update] + Updates(lines[1..], decode)
    else Updates(lines[1..], decode)
  }

  /** A helper's transcript: short lines, the last one the reply, the others blank or progress. */
  predicate IsTranscript(lines: seq<Bytes>, decode: Decoder) {
    && lines != []
    && (forall i :: 0 <= i < |lines| ==> IsLine(lines[i]))
    && (forall i :: 0 <= i < |lines| - 1 ==> Blank(lines[i]) || decode(lines[i]).Progress?)
    && !Blank(lines[|lines| - 1]) && decode(lines[|lines| - 1]).Final?
  }

  lemma OneLine(line: Bytes, rest: Bytes)
    requires IsLine(line)
    ensures FirstNewline(line + [NEWLINE] + rest) == Some(|line|)
    ensures (line + [NEWLINE] + rest)[..|line|] == line
    ensures (line + [NEWLINE] + rest)[|line| + 1..] == rest
  {
    NewlineIsUnique(line + [NEWLINE] + rest, |line|);
  }

  /** A line written to a stream that has no reply yet is taken as what it decodes to. */
  lemma WrittenLineDrains(line: Bytes, rest: Bytes, decode: Decoder)
    requires IsLine(line)
    ensures Drained(Stream(line + [NEWLINE] + rest, None), decode)
         == if Blank(line) then Drained(Stream(rest, None), decode)
            else match decode(line)
                 case Malformed => None
                 case Progress(update) => Onto([update], Drained(Stream(rest, None), decode))
                 case Final(reply) => Drained(Stream(rest, Some(reply)), decode)
  {
    OneLine(line, rest);
    OntoTwice([], [], Drained(Stream(rest, None), decode));
    if decode(line).Final? {
      OntoTwice([], [], Drained(Stream(rest, Some(decode(line).reply)), decode));
    }
  }

  lemma {:induction false} TranscriptDrains(lines: seq<Bytes>, decode: Decoder)
    requires IsTranscript(lines, decode)
    ensures Drained(Stream(Written(lines), None), decode)
         == Some((Stream([], Some(decode(lines[|lines| - 1]).reply)), Updates(lines, decode)))
  {
    var rest := lines[1..];
    WrittenLineDrains(lines[0], Written(rest), decode);
    if rest != [] {
      assert rest[|rest| - 1] == lines[|lines| - 1];
      assert forall i :: 0 <= i < |rest| ==> rest[i] == lines[i + 1];
      TranscriptDrains(rest, decode);
    }
  }

  /** Any transcript, however cut, is accepted with exactly its reply and its updates. */
  lemma TranscriptIsAccepted(lines: seq<Bytes>, chunks: seq<Bytes>, decode: Decoder)
    requires IsTranscript(lines, decode) && Concat(chunks) == Written(lines)
    ensures Accepted(Fed(chunks, decode)) == Some((decode(lines[|lines| - 1]).reply, Updates(lines, decode)))
  {
    FedIsWhole(chunks, decode);
    assert [] + Written(lines) == Written(lines);
    TranscriptDrains(lines, decode);
  }

  predicate AllOnTheWay(lines: seq<Bytes>, decode: Decoder) {
    forall i :: 0 <= i < |lines| ==> IsLine(lines[i]) && (Blank(lines[i]) || decode(lines[i]).Progress?)
  }

  lemma {:induction false} ProgressDrains(lines: seq<Bytes>, rest: Bytes, decode: Decoder)
    requires AllOnTheWay(lines, decode) && IsLine(rest)
    ensures Drained(Stream(Written(lines) + rest, None), decode) == Some((Stream(rest, None), Updates(lines, decode)))
  {
    if lines == [] {
      assert [] + rest == rest;
      var end := FirstNewline(rest);
    } else {
      var more := lines[1..];
      assert Written(lines) + rest == lines[0] + [NEWLINE] + (Written(more) + rest);
      WrittenLineDrains(lines[0], Written(more) + rest, decode);
      assert AllOnTheWay(more, decode);
      ProgressDrains(more, rest, decode);
    }
  }

  /** Updates are handed on as soon as their line is complete: while no reply has come, what was read so
      far has given exactly the updates of its complete lines, and the parser holds the rest. */
  lemma UpdatesAreImmediate(lines: seq<Bytes>, rest: Bytes, chunks: seq<Bytes>, decode: Decoder)
    requires AllOnTheWay(lines, decode) && IsLine(rest) && Concat(chunks) == Written(lines) + rest
    ensures Fed(chunks, decode) == Some((Stream(rest, None), Updates(lines, decode)))
  {
    FedIsWhole(chunks, decode);
    assert [] + (Written(lines) + rest) == Written(lines) + rest;
    ProgressDrains(lines, rest, decode);
  }

  /** What is accepted while no reply has come is a transcript; its lines are recovered. */
  lemma {:induction false} DrainedWasTranscript(b: Bytes, decode: Decoder) returns (lines: seq<Bytes>)
    requires Accepted(Drained(Stream(b, None), decode)).Some?
    ensures IsTranscript(lines, decode) && Written(lines) == b
    decreases |b|
  {
    var line, rest := FirstLine(b, decode);
    WrittenLineDrains(line, rest, decode);
    if Blank(line) || decode(line).Progress? {
      var more := DrainedWasTranscript(rest, decode);
      lines := OneMore(line, more, decode);
    } else {
      AfterReply(rest, decode(line).reply, decode);
      lines := OnlyReply(line, decode);
    }
  }

  /** Without a complete first line there is no reply to accept. */
  lemma FirstLine(b: Bytes, decode: Decoder) returns (line: Bytes, rest: Bytes)
    requires Accepted(Drained(Stream(b, None), decode)).Some?
    ensures IsLine(line) && b == line + [NEWLINE] + rest
  {
    var end := FirstNewline(b).value;
    line, rest := b[..end], b[end + 1..];
  }

  lemma OnlyReply(line: Bytes, decode: Decoder) returns (lines: seq<Bytes>)
    requires IsLine(line) && !Blank(line) && decode(line).Final?
    ensures IsTranscript(lines, decode) && Written(lines) == line + [NEWLINE]
  {
    lines := [line];
    assert Written(lines[1..]) == [];
  }

  lemma OneMore(line: Bytes, more: seq<Bytes>, decode: Decoder) returns (lines: seq<Bytes>)
    requires IsLine(line) && (Blank(line) || decode(line).Progress?) && IsTranscript(more, decode)
    ensures IsTranscript(lines, decode) && Written(lines) == line + [NEWLINE] + Written(more)
  {
    lines := [line] + more;
    assert lines[1..] == more;
  }

  lemma AfterReply(rest: Bytes, reply: string, decode: Decoder)
    requires Accepted(Drained(Stream(rest, Some(reply)), decode)).Some?
    ensures rest == []
  {
  }

  /** A stream is accepted exactly when its bytes are some transcript. */
  lemma AcceptedIffTranscript(chunks: seq<Bytes>, decode: Decoder)
    ensures Accepted(Fed(chunks, decode)).Some?
        <==> exists lines :: IsTranscript(lines, decode) && Written(lines) == Concat(chunks)
  {
    FedIsWhole(chunks, decode);
    var b := Concat(chunks);
    assert [] + b == b;
    if Accepted(Fed(chunks, decode)).Some? {
      var lines := DrainedWasTranscript(b, decode);
    }
    if lines :| IsTranscript(lines, decode) && Written(lines) == b {
      TranscriptIsAccepted(lines, chunks, decode);
    }
  }
}
