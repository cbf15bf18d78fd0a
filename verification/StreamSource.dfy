/** From host chunks to the engine: the reader's bytes are framed into lines, the lines decoded,
    and the walk sees the same lines however the host cut its chunks and whatever buffers were
    used to read them. Decoding one line is a function given from outside. */
module StreamSource {
  import opened Collections
  import opened Frames
  import opened StreamIntegrity
  import opened StreamWalk
  import opened HostReader

  const NEWLINE: Byte := 10
  const RETURN: Byte := 13

  /** A line longer than the scanner's buffer ends the scan with an error. */
  const MAX_LINE := 4194304

  /** The lines framed; open tells that the last one ended with the bytes, not with a newline. */
  datatype Scanned = Scanned(lines: seq<seq<Byte>>, open: bool, tooLong: bool)

  function LineLength(b: seq<Byte>): (n: nat)
    ensures n <= |b| && NEWLINE !in b[..n] && (n < |b| ==> b[n] == NEWLINE)
  {
    if b == [] || b[0] == NEWLINE then 0 else 1 + LineLength(b[1..])
  }

  function DropReturn(line: seq<Byte>): seq<Byte> {
    if line != [] && line[|line| - 1] == RETURN then line[..|line| - 1] else line
  }

  /** Lines end at a newline, and the last one at the end of the bytes. */
  function Scan(b: seq<Byte>): Scanned
    decreases |b|
  {
    var n := LineLength(b);
    if b == [] then Scanned([], false, false)
    else if n >= MAX_LINE then Scanned([], false, true)
    else if n == |b| then Scanned([DropReturn(b)], true, false)
    else
      var rest := Scan(b[n + 1..]);
      rest.(lines := [DropReturn(b[..n])] + rest.lines)
  }

  /** A line of its own is framed as it is, without a carriage return at its end. */
  lemma ScanLine(line: seq<Byte>, rest: seq<Byte>)
    requires NEWLINE !in line && |line| < MAX_LINE
    ensures Scan(line + [NEWLINE] + rest) == Scan(rest).(lines := [DropReturn(line)] + Scan(rest).lines)
  {
    var b := line + [NEWLINE] + rest;
    LengthOfLine(line, rest);
    assert b[..|line|] == line && b[|line| + 1..] == rest;
  }

  lemma {:induction false} LengthOfLine(line: seq<Byte>, rest: seq<Byte>)
    requires NEWLINE !in line
    ensures LineLength(line + [NEWLINE] + rest) == |line|
  {
    if line != [] {
      assert (line + [NEWLINE] + rest)[1..] == line[1..] + [NEWLINE] + rest;
      LengthOfLine(line[1..], rest);
    }
  }

  /** Lines in plain bytes: they end at byte 10, with or without a byte 13 before it, or where the
      bytes end; a line of four mebibytes ends the scan with an error. */
  lemma LinesExactly(body: seq<Byte>, rest: seq<Byte>)
    requires 10 !in body && |body| < 4194303 && (body != [] ==> body[|body| - 1] != 13)
    ensures Scan(body + [10] + rest) == Scan(rest).(lines := [body] + Scan(rest).lines)
    ensures Scan(body + [13] + [10] + rest) == Scan(rest).(lines := [body] + Scan(rest).lines)
    ensures body != [] ==> Scan(body) == Scanned([body], true, false)
    ensures Scan(body + [13]) == Scanned([body], true, false)
    ensures Scan([]) == Scanned([], false, false)
  {
    ScanLine(body, rest);
    ScanLine(body + [13], rest);
    LengthOfLast(body);
    LengthOfLast(body + [13]);
    hide LineLength;
    assert (body + [13])[..|body|] == body;
  }

  lemma {:induction false} LengthOfLast(line: seq<Byte>)
    requires NEWLINE !in line
    ensures LineLength(line) == |line|
  {
    if line != [] { LengthOfLast(line[1..]); }
  }

  /** A line that does not end within four mebibytes fails the scan, whatever was framed before. */
  lemma LongLineFails(line: seq<Byte>, rest: seq<Byte>)
    requires 10 !in line && |line| >= 4194304
    ensures Scan(line + rest) == Scanned([], false, true)
  {
    LongLine(line, rest);
  }

  lemma {:induction false} LongLine(line: seq<Byte>, rest: seq<Byte>)
    requires NEWLINE !in line
    ensures LineLength(line + rest) >= |line|
  {
    if line != [] {
      assert (line + rest)[1..] == line[1..] + rest;
      LongLine(line[1..], rest);
    }
  }

  function Decoded(decode: seq<Byte> -> Line, lines: seq<seq<Byte>>): (r: seq<Line>)
    ensures |r| == |lines|
  {
    seq(|lines|, i requires 0 <= i < |lines| => decode(lines[i]))
  }

  /** Whether the end marker comes on a line that is framed before the bytes end. */
  predicate Marked(lines: seq<Line>, open: bool) {
    exists k :: 0 <= k < (if open then |lines| - 1 else |lines|) && lines[k] == Done
  }

  /** A failure to read counts only while the end marker was not framed: the walk stops there and
      asks for nothing more. */
  predicate ReadFails(decode: seq<Byte> -> Line, s: Stream) {
    var scanned := Scan(s.bytes);
    (scanned.tooLong || s.end != Eof) && !Marked(Decoded(decode, scanned.lines), scanned.open)
  }

  /** What a walk makes of everything a reader delivers. */
  function Walked(env: Env, decode: seq<Byte> -> Line, s: Stream): Outcome {
    WalkFrom(env, INITIAL, Decoded(decode, Scan(s.bytes).lines), ReadFails(decode, s))
  }

  /** Live streaming from a host stream, read with buffers of any positive sizes. */
  method WalkReader(env: Env, decode: seq<Byte> -> Line, r: Reader, sizes: nat -> nat, room: Option<nat>)
    returns (emitted: seq<Frame>, error: Option<WalkError>)
    requires r.Valid() && forall k :: sizes(k) > 0
    modifies r, r.s
    ensures Emitted(Walked(env, decode, old(r.Remaining())), room, emitted, error)
  {
    hide Scan, WalkFrom, Emitted, Decoded, Marked;
    var bytes, end := Drain(r, sizes);
    var scanned := Scan(bytes);
    var lines := Decoded(decode, scanned.lines);
    var fails := (scanned.tooLong || end != Eof) && !Marked(lines, scanned.open);
    emitted, error := Walk(env, lines, fails, room);
  }

  /** Complete lines, one after the other. */
  function Joined(lines: seq<seq<Byte>>): seq<Byte> {
    if lines == [] then [] else lines[0] + [NEWLINE] + Joined(lines[1..])
  }

  function Dropped(lines: seq<seq<Byte>>): (r: seq<seq<Byte>>)
    ensures |r| == |lines|
  {
    seq(|lines|, i requires 0 <= i < |lines| => DropReturn(lines[i]))
  }

  predicate Framable(lines: seq<seq<Byte>>) {
    forall l | l in lines :: NEWLINE !in l && |l| < MAX_LINE
  }

  lemma {:induction false} ScanJoined(lines: seq<seq<Byte>>, rest: seq<Byte>)
    requires Framable(lines)
    ensures Scan(Joined(lines) + rest) == Scan(rest).(lines := Dropped(lines) + Scan(rest).lines)
    decreases |lines|
  {
    hide Scan, DropReturn;
    if lines == [] {
      assert Joined(lines) + rest == rest && Dropped(lines) + Scan(rest).lines == Scan(rest).lines;
    } else {
      assert lines[0] in lines && forall l | l in lines[1..] :: l in lines;
      ScanJoined(lines[1..], rest);
      ScanLine(lines[0], Joined(lines[1..]) + rest);
      assert Joined(lines) + rest == lines[0] + [NEWLINE] + (Joined(lines[1..]) + rest);
      assert Dropped(lines) == [DropReturn(lines[0])] + Dropped(lines[1..]);
      assert [DropReturn(lines[0])] + (Dropped(lines[1..]) + Scan(rest).lines) == Dropped(lines) + Scan(rest).lines;
    }
  }

  /** A walk does not look past the end marker. */
  lemma {:induction false} WalkStops(env: Env, s: State, lines: seq<Line>, x: seq<Line>, y: seq<Line>)
    requires Done in lines
    ensures WalkFrom(env, s, lines + x, false) == WalkFrom(env, s, lines + y, false)
    decreases |lines|
  {
    hide Feed, Ended;
    assert (lines + x)[0] == lines[0] == (lines + y)[0];
    assert (lines + x)[1..] == lines[1..] + x && (lines + y)[1..] == lines[1..] + y;
    match lines[0] {
      case Skip => WalkStops(env, s, lines[1..], x, y);
      case Body(f) => if Feed(s, f).Ok? { WalkStops(env, Feed(s, f).state, lines[1..], x, y); }
      case _ =>
    }
  }

  /** Whatever the host does after the line of the end marker, more bytes, an error or nothing,
      changes neither the frames nor the outcome. */
  lemma NothingAfterTheMarker(env: Env, decode: seq<Byte> -> Line, lines: seq<seq<Byte>>, a: Stream, b: Stream)
    requires Framable(lines) && Done in Decoded(decode, Dropped(lines))
    requires Joined(lines) <= a.bytes && Joined(lines) <= b.bytes
    ensures Walked(env, decode, a) == Walked(env, decode, b)
  {
    UpToTheMarker(decode, lines, a);
    UpToTheMarker(decode, lines, b);
    var front := Decoded(decode, Dropped(lines));
    var x := Decoded(decode, Scan(a.bytes).lines)[|lines|..];
    var y := Decoded(decode, Scan(b.bytes).lines)[|lines|..];
    WalkStops(env, INITIAL, front, x, y);
    hide Scan, WalkFrom, Decoded, Dropped, ReadFails;
  }

  /** Without the end marker, a stream that breaks off or holds an overlong line is never accepted,
      and one that is read to its end fails for nothing but what its lines say. */
  lemma BrokenStreamFails(env: Env, decode: seq<Byte> -> Line, s: Stream)
    requires Done !in Decoded(decode, Scan(s.bytes).lines)
    ensures s.end != Eof || Scan(s.bytes).tooLong ==> Walked(env, decode, s).verdict.Failure?
    ensures s.end == Eof && !Scan(s.bytes).tooLong ==>
      Walked(env, decode, s) == WalkFrom(env, INITIAL, Decoded(decode, Scan(s.bytes).lines), false)
  {
    WalkAccepts(env, INITIAL, Decoded(decode, Scan(s.bytes).lines), true);
    hide Scan, WalkFrom, Decoded, FramesOf, StopOf;
  }

  lemma UpToTheMarker(decode: seq<Byte> -> Line, lines: seq<seq<Byte>>, s: Stream)
    requires Framable(lines) && Done in Decoded(decode, Dropped(lines)) && Joined(lines) <= s.bytes
    ensures var all, front := Decoded(decode, Scan(s.bytes).lines), Decoded(decode, Dropped(lines));
      |front| == |lines| <= |all| && all == front + all[|lines|..] && !ReadFails(decode, s)
  {
    var rest := s.bytes[|Joined(lines)|..];
    assert s.bytes == Joined(lines) + rest;
    ScanJoined(lines, rest);
    OpenIsALine(rest);
    var more := Scan(rest).lines;
    DecodedAppend(decode, Dropped(lines), more);
    hide Scan, DropReturn, Dropped, Decoded, Joined;
    var front, all := Decoded(decode, Dropped(lines)), Decoded(decode, Scan(s.bytes).lines);
    assert all == front + Decoded(decode, more);
    var k :| 0 <= k < |front| && front[k] == Done;
    assert all[k] == Done;
  }

  lemma DecodedAppend(decode: seq<Byte> -> Line, a: seq<seq<Byte>>, b: seq<seq<Byte>>)
    ensures Decoded(decode, a + b) == Decoded(decode, a) + Decoded(decode, b)
  {
  }

  lemma OpenIsALine(b: seq<Byte>)
    ensures Scan(b).open ==> Scan(b).lines != []
  {
  }

  /** A stream without an error, an end before its last chunk, or 101 empty chunks in a row. */
  ghost predicate Undisturbed(replies: seq<Reply>) {
    && (replies != [] ==> Open(replies, |replies| - 1) && replies[|replies| - 1].error.None?)
    && forall n | 0 <= n <= |replies| :: !Quiet(replies, n, 101)
  }

  /** Main theorem: two undisturbed chunkings of the same bytes give the same walk: the same
      frames shown, the same terminals or the same error. */
  lemma ChunksAreInvisible(env: Env, decode: seq<Byte> -> Line, a: seq<Reply>, b: seq<Reply>)
    requires Undisturbed(a) && Undisturbed(b) && Concat(a) == Concat(b)
    ensures Walked(env, decode, Whole(a, 0)) == Walked(env, decode, Whole(b, 0))
  {
    ChunkingIsInvisible(a);
    ChunkingIsInvisible(b);
    hide Whole, Walked, Concat;
  }
}
