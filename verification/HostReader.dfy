/** The adapter that turns the host's stream of chunks into a byte reader. The host answers with
    chunks of any size, empty ones included; the reader serves any buffer sizes. */
module HostReader {
  import opened Collections

  type Byte = x: int | 0 <= x < 256

  /** One answer of the host; a stream that is asked beyond its answers says it is done. */
  datatype Reply = Reply(data: seq<Byte>, done: bool, error: Option<string>)

  datatype End = Eof | Failed(error: string) | NoProgress

  const MAX_EMPTY := 100

  predicate Ending(r: Reply) {
    r.done || r.error.Some?
  }

  function EndOf(error: Option<string>): End {
    if error.Some? then Failed(error.value) else Eof
  }

  /** Everything a reader of these answers delivers and how it ends, after some empty chunks. */
  datatype Stream = Stream(bytes: seq<Byte>, end: End)

  function Whole(replies: seq<Reply>, empties: nat): Stream {
    if replies == [] then Stream([], Eof)
    else
      var r := replies[0];
      if Ending(r) then Stream(r.data, EndOf(r.error))
      else if r.data != [] then
        var rest := Whole(replies[1..], 0);
        Stream(r.data + rest.bytes, rest.end)
      else if empties >= MAX_EMPTY then Stream([], NoProgress)
      else Whole(replies[1..], empties + 1)
  }

  /** What is left of a whole stream after taking its first n bytes. */
  function Rest(s: Stream, n: nat): Stream
    requires n <= |s.bytes|
  {
    Stream(s.bytes[n..], s.end)
  }

  /** Consuming one answer, or the implicit one past the last. */
  lemma WholeStep(rest: seq<Reply>, empties: nat, r: Reply, after: seq<Reply>)
    requires rest == [] ==> r == Reply([], true, None)
    requires rest != [] ==> r == rest[0] && after == rest[1..]
    ensures Ending(r) ==> Whole(rest, empties) == Stream(r.data, EndOf(r.error))
    ensures !Ending(r) && r.data != [] ==>
      Whole(rest, empties) == Stream(r.data + Whole(after, 0).bytes, Whole(after, 0).end)
    ensures !Ending(r) && r.data == [] && empties >= MAX_EMPTY ==> Whole(rest, empties) == Stream([], NoProgress)
    ensures !Ending(r) && r.data == [] && empties < MAX_EMPTY ==> Whole(rest, empties) == Whole(after, empties + 1)
  {
  }

  class HostStream {
    const replies: seq<Reply>
    var at: nat

    constructor (replies: seq<Reply>)
      ensures this.replies == replies && at == 0
    {
      this.replies, at := replies, 0;
    }

    method Next() returns (r: Reply)
      requires at <= |replies|
      modifies this
      ensures old(at) < |replies| ==> at == old(at) + 1 && r == replies[old(at)]
      ensures old(at) == |replies| ==> at == old(at) && r == Reply([], true, None)
    {
      if at == |replies| { return Reply([], true, None); }
      r := replies[at];
      at := at + 1;
    }
  }

  class Reader {
    const s: HostStream
    var buf: seq<Byte>
    var done: bool
    var err: Option<End>

    ghost predicate Valid()
      reads this, s
    {
      s.at <= |s.replies|
    }

    /** What this reader will still deliver. */
    ghost function Remaining(): Stream
      reads this, s
      requires Valid()
    {
      if done then Stream(buf, if err.Some? then err.value else Eof)
      else
        var rest := Whole(s.replies[s.at..], 0);
        Stream(buf + rest.bytes, rest.end)
    }

    constructor (s: HostStream)
      requires s.at == 0
      ensures Valid() && this.s == s && Remaining() == Whole(s.replies, 0)
    {
      this.s, buf, done, err := s, [], false, None;
      new;
      assert s.replies[0..] == s.replies;
    }

    /** Copies what fits and keeps the rest for the next call. */
    method Serve(p: array<Byte>, data: seq<Byte>) returns (n: nat)
      requires p.Length > 0 && |data| > 0 && (buf == data || buf == [])
      modifies this`buf, p
      ensures 0 < n <= p.Length && n <= |data| && p[..n] == data[..n] && p[n..] == old(p[n..]) && buf == data[n..]
      ensures forall more: seq<Byte> :: (data + more)[..n] == data[..n] && (data + more)[n..] == data[n..] + more
    {
      n := Copy(p, data);
      buf := data[n..];
    }

    /** Fills the front of p. Without an error at least one byte is delivered, in order, and
        nothing is lost; an error is returned only when every byte has been delivered, and
        again on every later call. */
    method Read(p: array<Byte>) returns (n: nat, error: Option<End>)
      requires Valid()
      modifies this, s, p
      ensures Valid() && n <= p.Length && p[n..] == old(p[n..])
      ensures p.Length == 0 ==> n == 0 && error.None? && Remaining() == old(Remaining())
      ensures p.Length > 0 && error.None? ==> 0 < n <= |old(Remaining()).bytes| && p[..n] == old(Remaining()).bytes[..n]
      ensures p.Length > 0 && error.None? ==> Remaining() == Rest(old(Remaining()), n)
      ensures error.Some? ==> n == 0 && old(Remaining()) == Stream([], error.value) && Remaining() == old(Remaining())
    {
      hide Whole;
      n, error := 0, None;
      if p.Length == 0 { return; }
      ghost var start := Remaining();
      var empty := 0;
      while true
        invariant Valid() && 0 <= empty <= MAX_EMPTY && n == 0 && error.None? && p[..] == old(p[..])
        invariant empty == 0 ==> Remaining() == start
        invariant empty > 0 ==> buf == [] && !done && Whole(s.replies[s.at..], empty) == start
        decreases MAX_EMPTY - empty
      {
        if |buf| > 0 {
          n := Serve(p, buf);
          return;
        }
        if done {
          if err.Some? { return 0, err; }
          return 0, Some(Eof);
        }
        ghost var rest := s.replies[s.at..];
        var r := s.Next();
        WholeStep(rest, empty, r, s.replies[s.at..]);
        done, err := r.done || r.error.Some?, if r.error.Some? then Some(Failed(r.error.value)) else None;
        if |r.data| > 0 {
          n := Serve(p, r.data);
          return;
        }
        if done {
          if r.error.Some? { return 0, Some(Failed(r.error.value)); }
          return 0, Some(Eof);
        }
        if empty >= MAX_EMPTY {
          done, err := true, Some(NoProgress);
          return 0, err;
        }
        empty := empty + 1;
      }
    }
  }

  /** As many of the bytes as fit, from the front. */
  method Copy(p: array<Byte>, data: seq<Byte>) returns (n: nat)
    modifies p
    ensures n == if p.Length < |data| then p.Length else |data|
    ensures p[..n] == data[..n] && p[n..] == old(p[n..])
  {
    n := if p.Length < |data| then p.Length else |data|;
    for i := 0 to n
      invariant p[..i] == data[..i] && p[i..] == old(p[i..])
    {
      p[i] := data[i];
    }
  }

  /** A consumer that reads with buffers of any positive sizes until the end. */
  method Drain(r: Reader, sizes: nat -> nat) returns (all: seq<Byte>, end: End)
    requires r.Valid() && forall k :: sizes(k) > 0
    modifies r, r.s
    ensures Stream(all, end) == old(r.Remaining())
  {
    hide Whole;
    all := [];
    var k := 0;
    ghost var whole := r.Remaining();
    while true
      invariant r.Valid() && all + r.Remaining().bytes == whole.bytes && r.Remaining().end == whole.end
      decreases |r.Remaining().bytes|
    {
      var p := new Byte[sizes(k)];
      ghost var before := r.Remaining();
      var n, error := r.Read(p);
      if error.Some? { return all, error.value; }
      Regroup(all, before.bytes, n);
      all := all + p[..n];
      k := k + 1;
    }
  }

  lemma Regroup(all: seq<Byte>, left: seq<Byte>, n: nat)
    requires n <= |left|
    ensures all + left == all + left[..n] + left[n..]
  {
    assert left == left[..n] + left[n..];
  }

  // ----- what a whole stream is

  function Concat(replies: seq<Reply>): seq<Byte> {
    if replies == [] then [] else replies[0].data + Concat(replies[1..])
  }

  predicate IsEmpty(r: Reply) {
    r.data == [] && !Ending(r)
  }

  /** The answers consumed before the end: none ends the stream before the last. */
  ghost predicate Open(replies: seq<Reply>, n: nat) {
    n <= |replies| && forall j | 0 <= j < n :: !Ending(replies[j])
  }

  /** The last k answers before position n were empty. */
  ghost predicate Quiet(replies: seq<Reply>, n: nat, k: nat) {
    k <= n <= |replies| && forall j | n - k <= j < n :: IsEmpty(replies[j])
  }

  /** Why a stream may end after its first n answers. */
  ghost predicate EndsAt(replies: seq<Reply>, n: nat, end: End) {
    match end
    case Eof =>
      || (Open(replies, n) && n == |replies|)
      || (n > 0 && Open(replies, n - 1) && n <= |replies| && replies[n - 1].done && replies[n - 1].error.None?)
    case Failed(e) => n > 0 && Open(replies, n - 1) && n <= |replies| && replies[n - 1].error == Some(e)
    case NoProgress => Open(replies, n) && Quiet(replies, n, 101)
  }

  /** The bytes delivered are exactly the chunks' bytes, in order and without loss, up to the
      answer that ends the stream: the host's end, its error, or the last of 101 consecutive
      empty chunks. Empty chunks and chunk boundaries leave no other trace. */
  lemma WholeIsConcatenation(replies: seq<Reply>) returns (n: nat)
    ensures n <= |replies| && EndsAt(replies, n, Whole(replies, 0).end)
    ensures Whole(replies, 0).bytes == Concat(replies[..n])
  {
    n := WholeAfterEmpties([], replies);
    assert [] + replies == replies;
  }

  /** The same with a run of empty chunks already consumed. */
  lemma {:induction false} WholeAfterEmpties(empties: seq<Reply>, replies: seq<Reply>) returns (n: nat)
    requires |empties| <= MAX_EMPTY && forall r | r in empties :: IsEmpty(r)
    ensures n <= |replies| && EndsAt(empties + replies, |empties| + n, Whole(replies, |empties|).end)
    ensures Whole(replies, |empties|).bytes == Concat(replies[..n])
    decreases |replies|
  {
    hide EndsAt, Concat;
    NoConcat();
    if replies == [] {
      NothingLeft(empties);
      assert empties + replies == empties;
      return 0;
    }
    var r := replies[0];
    ConcatFirst(replies, 0);
    if Ending(r) {
      EndingFirst(empties, replies);
      return 1;
    }
    if r.data == [] && |empties| == MAX_EMPTY {
      QuietFirst(empties, replies);
      return 1;
    }
    var m: nat;
    if r.data == [] {
      m := WholeAfterEmpties(empties + [r], replies[1..]);
    } else {
      m := WholeAfterEmpties([], replies[1..]);
      assert [] + replies[1..] == replies[1..];
      EndsLater(empties + [r], replies[1..], m, Whole(replies[1..], 0).end);
    }
    n := m + 1;
    assert empties + [r] + replies[1..] == empties + replies;
    ConcatFirst(replies, m);
  }

  lemma NoConcat()
    ensures Concat([]) == []
  {
  }

  lemma ConcatFirst(replies: seq<Reply>, m: nat)
    requires m < |replies|
    ensures Concat(replies[..m + 1]) == replies[0].data + Concat(replies[1..][..m])
  {
    assert replies[..m + 1][1..] == replies[1..][..m];
  }

  lemma NothingLeft(empties: seq<Reply>)
    requires forall r | r in empties :: IsEmpty(r)
    ensures EndsAt(empties, |empties|, Eof)
  {
    forall j | 0 <= j < |empties| ensures IsEmpty(empties[j]) { assert empties[j] in empties; }
  }

  lemma EndingFirst(empties: seq<Reply>, replies: seq<Reply>)
    requires replies != [] && Ending(replies[0]) && forall r | r in empties :: IsEmpty(r)
    ensures EndsAt(empties + replies, |empties| + 1, EndOf(replies[0].error))
  {
    var all := empties + replies;
    assert all[|empties|] == replies[0];
    forall j | 0 <= j < |empties| ensures IsEmpty(all[j]) { assert empties[j] in empties; }
  }

  lemma QuietFirst(empties: seq<Reply>, replies: seq<Reply>)
    requires replies != [] && IsEmpty(replies[0]) && |empties| == MAX_EMPTY && forall r | r in empties :: IsEmpty(r)
    ensures EndsAt(empties + replies, |empties| + 1, NoProgress)
  {
    var all := empties + replies;
    assert all[|empties|] == replies[0];
    forall j | 0 <= j < |empties| ensures IsEmpty(all[j]) { assert empties[j] in empties; }
  }

  lemma EndsLater(front: seq<Reply>, replies: seq<Reply>, n: nat, end: End)
    requires n <= |replies| && EndsAt(replies, n, end) && forall r | r in front :: !Ending(r)
    ensures EndsAt(front + replies, |front| + n, end)
  {
    assert forall j | 0 <= j < |replies| :: (front + replies)[|front| + j] == replies[j];
    assert forall j | |front| <= j < |front| + |replies| :: (front + replies)[j] == replies[j - |front|];
  }

  /** Somewhere before the stream ends, 101 empty chunks come in a row. */
  ghost predicate Stalls(replies: seq<Reply>) {
    exists n :: 0 <= n <= |replies| && Open(replies, n) && Quiet(replies, n, 101)
  }

  /** A reader gives up for want of progress exactly on a stream that stalls. */
  lemma GivesUpExactly(replies: seq<Reply>)
    ensures Whole(replies, 0).end == NoProgress <==> Stalls(replies)
  {
    StallsAfter([], replies);
    assert [] + replies == replies;
  }

  lemma {:induction false} StallsAfter(empties: seq<Reply>, replies: seq<Reply>)
    requires |empties| <= MAX_EMPTY && forall j | 0 <= j < |empties| :: IsEmpty(empties[j])
    ensures Whole(replies, |empties|).end == NoProgress <==> Stalls(empties + replies)
    decreases |replies|
  {
    hide Stalls, IsEmpty, Concat;
    if replies == [] {
      StopsEarly(empties + replies, |empties|);
    } else if Ending(replies[0]) {
      assert (empties + replies)[|empties|] == replies[0];
      StopsEarly(empties + replies, |empties|);
    } else if replies[0].data != [] {
      StallsAfter([], replies[1..]);
      assert [] + replies[1..] == replies[1..];
      StallsLater(empties, replies);
    } else if |empties| == MAX_EMPTY {
      EmptyHere(replies[0]);
      StallsNow(empties + replies);
    } else {
      EmptyHere(replies[0]);
      StallsAfter(empties + [replies[0]], replies[1..]);
      assert empties + [replies[0]] + replies[1..] == empties + replies;
    }
  }

  lemma EmptyHere(r: Reply)
    requires r.data == [] && !Ending(r)
    ensures IsEmpty(r)
  {
  }

  lemma StopsEarly(all: seq<Reply>, k: nat)
    requires k <= 100 && k <= |all| && (k < |all| ==> Ending(all[k]))
    ensures !Stalls(all)
  {
  }

  lemma StallsNow(all: seq<Reply>)
    requires |all| >= 101 && forall j | 0 <= j < 101 :: IsEmpty(all[j])
    ensures Stalls(all)
  {
    assert Open(all, 101) && Quiet(all, 101, 101);
  }

  /** A chunk with bytes starts the count anew. */
  lemma StallsLater(empties: seq<Reply>, replies: seq<Reply>)
    requires |empties| <= 100 && replies != [] && replies[0].data != [] && !Ending(replies[0])
    requires forall j | 0 <= j < |empties| :: IsEmpty(empties[j])
    ensures Stalls(empties + replies) <==> Stalls(replies[1..])
  {
    var all, rest, k := empties + replies, replies[1..], |empties| + 1;
    assert all == empties + [replies[0]] + rest;
    if Stalls(all) {
      var n :| 0 <= n <= |all| && Open(all, n) && Quiet(all, n, 101);
      assert !IsEmpty(all[|empties|]);
      assert Open(rest, n - k) && Quiet(rest, n - k, 101) by {
        assert forall j | 0 <= j < |rest| :: all[k + j] == rest[j];
      }
    }
    if Stalls(rest) {
      var n :| 0 <= n <= |rest| && Open(rest, n) && Quiet(rest, n, 101);
      assert forall j | k <= j < |all| :: all[j] == rest[j - k];
      assert Open(all, n + k) && Quiet(all, n + k, 101);
    }
  }

  /** Without an error, an end before the last chunk or 101 empty chunks in a row, a reader of any chunking
      delivers the concatenation of all chunks and then the end of the stream. */
  lemma ChunkingIsInvisible(replies: seq<Reply>)
    requires replies != [] ==> Open(replies, |replies| - 1) && replies[|replies| - 1].error.None?
    requires forall n | 0 <= n <= |replies| :: !Quiet(replies, n, 101)
    ensures Whole(replies, 0) == Stream(Concat(replies), Eof)
  {
    var n := WholeIsConcatenation(replies);
    assert replies[..|replies|] == replies;
  }
}
