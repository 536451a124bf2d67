/**
 Newline framing of a byte stream. This module defines what the frames of a stream are,
 with no buffer and no chunks, and what a receiver with a bounded buffer makes of a
 stream that arrives in chunks.
 */
module Framing {

  const NEWLINE := '\n'

  // ---------------------------------------------------------------- splitting a whole stream

  /** Where the line that starts at `p` ends: at its newline, or at the end of the text. */
  function LineEnd(s: seq<char>, p: nat): (k: nat)
    requires p <= |s|
    ensures p <= k <= |s| && (k < |s| ==> s[k] == NEWLINE)
    decreases |s| - p
  {
    if p == |s| || s[p] == NEWLINE then p else LineEnd(s, p + 1)
  }

  /** The complete lines from position `p` on, without their newlines. */
  function FramesFrom(s: seq<char>, p: nat): seq<seq<char>>
    requires p <= |s|
    decreases |s| - p
  {
    var k := LineEnd(s, p);
    if k == |s| then [] else [s[p..k]] + FramesFrom(s, k + 1)
  }

  /** Where the text behind the last newline starts. */
  function LastStart(s: seq<char>, p: nat): (start: nat)
    requires p <= |s|
    ensures p <= start <= |s|
    decreases |s| - p
  {
    var k := LineEnd(s, p);
    if k == |s| then p else LastStart(s, k + 1)
  }

  /** The complete lines of a stream. */
  function Frames(s: seq<char>): seq<seq<char>> {
    FramesFrom(s, 0)
  }

  /** What follows the last newline. */
  function Leftover(s: seq<char>): seq<char> {
    s[LastStart(s, 0)..]
  }

  /** Lines put back into one stream. */
  function Join(frames: seq<seq<char>>): seq<char> {
    if frames == [] then [] else frames[0] + [NEWLINE] + Join(frames[1..])
  }

  function Newlines(s: seq<char>): nat {
    multiset(s)[NEWLINE]
  }

  ghost predicate IsSplit(s: seq<char>, frames: seq<seq<char>>, rest: seq<char>) {
    && Join(frames) + rest == s
    && (forall i :: 0 <= i < |frames| ==> NEWLINE !in frames[i])
    && NEWLINE !in rest
  }

  lemma Reassociate(x: seq<char>, y: seq<char>, z: seq<char>)
    ensures (x + y) + z == x + (y + z)
  {
  }

  lemma {:induction false} NoEarlierNewline(s: seq<char>, p: nat)
    requires p <= |s|
    ensures NEWLINE !in s[p..LineEnd(s, p)]
    decreases |s| - p
  {
    var k := LineEnd(s, p);
    if p < k {
      NoEarlierNewline(s, p + 1);
      assert s[p..k] == [s[p]] + s[p + 1..k];
    }
  }

  lemma {:induction false} LineEndIs(s: seq<char>, p: nat, k: nat)
    requires p <= k <= |s| && NEWLINE !in s[p..k]
    requires k < |s| ==> s[k] == NEWLINE
    ensures LineEnd(s, p) == k
    decreases k - p
  {
    if p < k {
      assert s[p..k] == [s[p]] + s[p + 1..k];
      LineEndIs(s, p + 1, k);
    }
  }

  lemma JoinedOneMore(s: seq<char>, p: nat, k: nat, frames: seq<seq<char>>, last: seq<char>)
    requires p <= k < |s| && s[k] == NEWLINE && Join(frames) + last == s[k + 1..]
    ensures Join([s[p..k]] + frames) + last == s[p..]
  {
    Reassociate(s[p..k] + [NEWLINE], Join(frames), last);
  }

  lemma {:induction false} JoinedFrames(s: seq<char>, p: nat)
    requires p <= |s|
    ensures Join(FramesFrom(s, p)) + s[LastStart(s, p)..] == s[p..]
    decreases |s| - p
  {
    var k := LineEnd(s, p);
    if k < |s| {
      var frames, start := FramesFrom(s, k + 1), LastStart(s, k + 1);
      JoinedFrames(s, k + 1);
      JoinedOneMore(s, p, k, frames, s[start..]);
      assert FramesFrom(s, p) == [s[p..k]] + frames && LastStart(s, p) == start;
    } else {
      assert FramesFrom(s, p) == [] && LastStart(s, p) == p;
    }
  }

  lemma {:induction false} FramesAreLines(s: seq<char>, p: nat)
    requires p <= |s|
    ensures forall i :: 0 <= i < |FramesFrom(s, p)| ==> NEWLINE !in FramesFrom(s, p)[i]
    ensures NEWLINE !in s[LastStart(s, p)..]
    decreases |s| - p
  {
    var k := LineEnd(s, p);
    NoEarlierNewline(s, p);
    if k < |s| {
      FramesAreLines(s, k + 1);
    } else {
      assert s[p..k] == s[p..];
    }
  }

  /** Joining the frames with newlines and adding the leftover gives the stream back. */
  lemma SplitIsSplit(s: seq<char>)
    ensures IsSplit(s, Frames(s), Leftover(s))
  {
    JoinedFrames(s, 0);
    FramesAreLines(s, 0);
    assert s[0..] == s;
  }

  lemma FirstLine(s: seq<char>, p: nat, line: seq<char>, tail: seq<char>)
    requires p <= |s| && s[p..] == line + [NEWLINE] + tail && NEWLINE !in line
    ensures var k := p + |line|; k < |s| && LineEnd(s, p) == k && s[p..k] == line && s[k + 1..] == tail
  {
    var k := p + |line|;
    assert s[p..k] == s[p..][..|line|];
    assert s[k] == s[p..][|line|];
    assert s[k + 1..] == s[p..][|line| + 1..];
    LineEndIs(s, p, k);
  }

  /** The first frame of any splitting is the first line. */
  lemma FirstFrame(s: seq<char>, p: nat, frames: seq<seq<char>>, rest: seq<char>)
    requires p <= |s| && frames != [] && IsSplit(s[p..], frames, rest)
    ensures var k := p + |frames[0]|;
      && k < |s| && LineEnd(s, p) == k && s[p..k] == frames[0]
      && IsSplit(s[k + 1..], frames[1..], rest)
  {
    Reassociate(frames[0] + [NEWLINE], Join(frames[1..]), rest);
    FirstLine(s, p, frames[0], Join(frames[1..]) + rest);
  }

  lemma NoMoreFrames(s: seq<char>, p: nat)
    requires p <= |s| && NEWLINE !in s[p..]
    ensures FramesFrom(s, p) == [] && LastStart(s, p) == p
  {
    assert s[p..|s|] == s[p..];
    LineEndIs(s, p, |s|);
  }

  lemma {:induction false} UniqueFrom(s: seq<char>, p: nat, frames: seq<seq<char>>, rest: seq<char>)
    requires p <= |s| && IsSplit(s[p..], frames, rest)
    ensures frames == FramesFrom(s, p)
    decreases |frames|
  {
    if frames == [] {
      NoMoreFrames(s, p);
    } else {
      var k, others := p + |frames[0]|, frames[1..];
      FirstFrame(s, p, frames, rest);
      UniqueFrom(s, k + 1, others, rest);
      assert frames == [s[p..k]] + others;
    }
  }

  /** There is no other way to cut a stream into lines and a leftover. */
  lemma SplitIsUnique(s: seq<char>, frames: seq<seq<char>>, rest: seq<char>)
    requires IsSplit(s, frames, rest)
    ensures frames == Frames(s) && rest == Leftover(s)
  {
    assert s[0..] == s;
    UniqueFrom(s, 0, frames, rest);
    JoinedFrames(s, 0);
    assert rest == s[|Join(frames)|..];
  }

  lemma NoFrames(s: seq<char>)
    requires NEWLINE !in s
    ensures Frames(s) == [] && Leftover(s) == s
  {
    SplitIsUnique(s, [], s);
  }

  lemma {:induction false} JoinedNewlines(frames: seq<seq<char>>)
    requires forall i :: 0 <= i < |frames| ==> NEWLINE !in frames[i]
    ensures Newlines(Join(frames)) == |frames|
  {
    if frames != [] {
      JoinedNewlines(frames[1..]);
      assert NEWLINE !in multiset(frames[0]);
    }
  }

  lemma FrameCount(s: seq<char>)
    ensures |Frames(s)| == Newlines(s)
  {
    SplitIsSplit(s);
    JoinedNewlines(Frames(s));
    assert NEWLINE !in multiset(Leftover(s));
    assert multiset(s) == multiset(Join(Frames(s))) + multiset(Leftover(s));
  }

  lemma {:induction false} JoinConcat(xs: seq<seq<char>>, ys: seq<seq<char>>)
    ensures Join(xs + ys) == Join(xs) + Join(ys)
  {
    if xs == [] {
      assert xs + ys == ys;
    } else {
      assert (xs + ys)[1..] == xs[1..] + ys;
      JoinConcat(xs[1..], ys);
    }
  }

  /** A stream can be split where it was cut, as long as the leftover is carried over. */
  lemma SplitConcat(s: seq<char>, t: seq<char>)
    ensures Frames(s + t) == Frames(s) + Frames(Leftover(s) + t)
    ensures Leftover(s + t) == Leftover(Leftover(s) + t)
  {
    var u := Leftover(s) + t;
    SplitIsSplit(s);
    SplitIsSplit(u);
    var frames, rest := Frames(s) + Frames(u), Leftover(u);
    assert Join(frames) + rest == s + t by {
      JoinConcat(Frames(s), Frames(u));
      Reassociate(Join(Frames(s)), Join(Frames(u)), rest);
      Reassociate(Join(Frames(s)), Leftover(s), t);
    }
    SplitIsUnique(s + t, frames, rest);
  }

  // ---------------------------------------------------------------- a stream in chunks

  function Concat(chunks: seq<seq<char>>): seq<char> {
    if chunks == [] then [] else chunks[0] + Concat(chunks[1..])
  }

  datatype Outcome = Outcome(frames: seq<seq<char>>, leftover: seq<char>, dropped: bool)

  /** What the receiver makes of the chunks of one connection, with `left` in its buffer:
      a chunk that does not fit beside the leftover ends the connection. */
  function Receive(capacity: nat, left: seq<char>, chunks: seq<seq<char>>): Outcome
    decreases |chunks|
  {
    if chunks == [] then Outcome([], left, false)
    else if |left| + |chunks[0]| > capacity then Outcome([], [], true)
    else
      var all := left + chunks[0];
      var rest := Receive(capacity, Leftover(all), chunks[1..]);
      Outcome(Frames(all) + rest.frames, rest.leftover, rest.dropped)
  }

  lemma {:induction false} ReceiveSplits(capacity: nat, left: seq<char>, chunks: seq<seq<char>>)
    requires NEWLINE !in left && !Receive(capacity, left, chunks).dropped
    ensures Receive(capacity, left, chunks).frames == Frames(left + Concat(chunks))
    ensures Receive(capacity, left, chunks).leftover == Leftover(left + Concat(chunks))
    decreases |chunks|
  {
    if chunks == [] {
      assert left + Concat(chunks) == left;
      NoFrames(left);
    } else {
      var all, later := left + chunks[0], Concat(chunks[1..]);
      SplitIsSplit(all);
      ReceiveSplits(capacity, Leftover(all), chunks[1..]);
      SplitConcat(all, later);
      Reassociate(left, chunks[0], later);
    }
  }

  /** A connection that is kept delivers the frames of its stream, however it was cut. */
  lemma ConnectionSplits(capacity: nat, chunks: seq<seq<char>>)
    ensures var r := Receive(capacity, [], chunks);
      !r.dropped ==> IsSplit(Concat(chunks), r.frames, r.leftover) && |r.frames| == Newlines(Concat(chunks))
  {
    if !Receive(capacity, [], chunks).dropped {
      ReceiveSplits(capacity, [], chunks);
    }
    assert [] + Concat(chunks) == Concat(chunks);
    SplitIsSplit(Concat(chunks));
    FrameCount(Concat(chunks));
  }

  lemma ChunkingDoesNotMatter(capacity: nat, chunks: seq<seq<char>>, chunks': seq<seq<char>>)
    requires Concat(chunks) == Concat(chunks')
    requires !Receive(capacity, [], chunks).dropped && !Receive(capacity, [], chunks').dropped
    ensures Receive(capacity, [], chunks) == Receive(capacity, [], chunks')
  {
    ReceiveSplits(capacity, [], chunks);
    ReceiveSplits(capacity, [], chunks');
  }

  // ---------------------------------------------------------------- when a connection is dropped

  /** The leftover of the chunks so far and the next chunk do not fit together. */
  ghost predicate Overflows(capacity: nat, left: seq<char>, chunks: seq<seq<char>>, k: nat) {
    k < |chunks| && |Leftover(left + Concat(chunks[..k]))| + |chunks[k]| > capacity
  }

  lemma ConcatShift(left: seq<char>, chunks: seq<seq<char>>, k: nat)
    requires 0 < k <= |chunks|
    ensures Leftover(left + Concat(chunks[..k])) == Leftover(Leftover(left + chunks[0]) + Concat(chunks[1..][..k - 1]))
  {
    assert chunks[..k][1..] == chunks[1..][..k - 1];
    assert left + Concat(chunks[..k]) == (left + chunks[0]) + Concat(chunks[1..][..k - 1]);
    SplitConcat(left + chunks[0], Concat(chunks[1..][..k - 1]));
  }

  lemma FirstOverflow(capacity: nat, left: seq<char>, chunks: seq<seq<char>>)
    requires NEWLINE !in left && chunks != []
    ensures Overflows(capacity, left, chunks, 0) <==> |left| + |chunks[0]| > capacity
  {
    assert left + Concat(chunks[..0]) == left;
    NoFrames(left);
  }

  lemma LaterOverflow(capacity: nat, left: seq<char>, chunks: seq<seq<char>>, k: nat)
    requires chunks != []
    ensures Overflows(capacity, left, chunks, k + 1)
       <==> Overflows(capacity, Leftover(left + chunks[0]), chunks[1..], k)
  {
    if k + 1 < |chunks| {
      ConcatShift(left, chunks, k + 1);
    }
  }

  /** A connection is dropped exactly when some chunk overflows the buffer. */
  lemma {:induction false} DroppedIffOverflow(capacity: nat, left: seq<char>, chunks: seq<seq<char>>)
    requires NEWLINE !in left
    ensures Receive(capacity, left, chunks).dropped <==> exists k: nat :: Overflows(capacity, left, chunks, k)
    decreases |chunks|
  {
    if chunks != [] {
      var next := Leftover(left + chunks[0]);
      SplitIsSplit(left + chunks[0]);
      FirstOverflow(capacity, left, chunks);
      DroppedIffOverflow(capacity, next, chunks[1..]);
      if j: nat :| Overflows(capacity, next, chunks[1..], j) {
        LaterOverflow(capacity, left, chunks, j);
      }
      if k: nat :| k > 0 && Overflows(capacity, left, chunks, k) {
        LaterOverflow(capacity, left, chunks, k - 1);
      }
    }
  }

  /** No stretch of the stream without a newline is longer than `n`. */
  ghost predicate RunsUpTo(s: seq<char>, n: nat) {
    forall i, j :: 0 <= i <= j <= |s| && NEWLINE !in s[i..j] ==> j - i <= n
  }

  lemma {:induction false} ConcatPrefix(chunks: seq<seq<char>>, k: nat)
    requires k <= |chunks|
    ensures Concat(chunks) == Concat(chunks[..k]) + Concat(chunks[k..])
    decreases k
  {
    if k > 0 {
      ConcatPrefix(chunks[1..], k - 1);
      assert chunks[..k][1..] == chunks[1..][..k - 1];
      assert chunks[1..][k - 1..] == chunks[k..];
    }
  }

  lemma LeftoverWithinRun(s: seq<char>, t: seq<char>, n: nat)
    requires RunsUpTo(s + t, n)
    ensures |Leftover(s)| <= n
  {
    SplitIsSplit(s);
    var i := |s| - |Leftover(s)|;
    assert (s + t)[i..|s|] == Leftover(s);
  }

  /** Lines short enough to fit beside any chunk never cost a client its connection. */
  lemma ShortLinesAreNeverDropped(capacity: nat, chunks: seq<seq<char>>, chunkSize: nat, n: nat)
    requires forall k :: 0 <= k < |chunks| ==> |chunks[k]| <= chunkSize
    requires n + chunkSize <= capacity && RunsUpTo(Concat(chunks), n)
    ensures !Receive(capacity, [], chunks).dropped
  {
    DroppedIffOverflow(capacity, [], chunks);
    forall k: nat | k < |chunks|
      ensures !Overflows(capacity, [], chunks, k)
    {
      ConcatPrefix(chunks, k);
      LeftoverWithinRun(Concat(chunks[..k]), Concat(chunks[k..]), n);
      assert [] + Concat(chunks[..k]) == Concat(chunks[..k]);
    }
  }

  lemma NewlineInside(s: seq<char>, i: nat, j: nat, p: nat)
    requires i <= p < j <= |s| && s[p] == NEWLINE
    ensures NEWLINE in s[i..j]
  {
    assert s[i..j][p - i] == NEWLINE;
  }

  lemma {:induction false} FramesFit(s: seq<char>, p: nat)
    requires p <= |s|
    ensures forall i :: 0 <= i < |FramesFrom(s, p)| ==> |FramesFrom(s, p)[i]| < |s|
    decreases |s| - p
  {
    var k := LineEnd(s, p);
    if k < |s| {
      FramesFit(s, k + 1);
    }
  }

  /** A connection that is kept had only complete lines that fit the buffer together with
      their newline, and a leftover that fits it: a stream with a longer one is dropped
      however it is cut. */
  lemma {:induction false} LongLinesAreDropped(capacity: nat, left: seq<char>, chunks: seq<seq<char>>)
    requires |left| <= capacity && !Receive(capacity, left, chunks).dropped
    ensures forall i :: 0 <= i < |Frames(left + Concat(chunks))| ==> |Frames(left + Concat(chunks))[i]| < capacity
    ensures |Leftover(left + Concat(chunks))| <= capacity
    decreases |chunks|
  {
    if chunks == [] {
      assert left + Concat(chunks) == left;
      FramesFit(left, 0);
    } else {
      var all, later := left + chunks[0], Concat(chunks[1..]);
      FramesFit(all, 0);
      LongLinesAreDropped(capacity, Leftover(all), chunks[1..]);
      SplitConcat(all, later);
      Reassociate(left, chunks[0], later);
    }
  }

  function Repeat(b: char, n: nat): seq<char> {
    seq(n, _ => b)
  }

  function Bytewise(s: seq<char>): (chunks: seq<seq<char>>) {
    seq(|s|, i requires 0 <= i < |s| => [s[i]])
  }

  lemma {:induction false} BytewiseConcat(s: seq<char>)
    ensures Concat(Bytewise(s)) == s
  {
    if s != [] {
      assert Bytewise(s)[1..] == Bytewise(s[1..]);
      BytewiseConcat(s[1..]);
    }
  }

  /** In between, it depends on the chunks: with reads of up to `n` bytes and a buffer of
      `2 * n`, one and the same stream, whose longest line has `n + 1` bytes, loses its
      connection when it arrives in three chunks and keeps it when it arrives byte by byte. */
  lemma InBetweenChunkingDecides(n: nat)
    requires n >= 2
    ensures var line, rest := Repeat('x', n), [NEWLINE] + Repeat('x', n - 1);
      var chunks := [line, ['x'], rest];
      && (forall k :: 0 <= k < 3 ==> |chunks[k]| <= n)
      && Receive(2 * n, [], chunks).dropped
      && Concat(Bytewise(Concat(chunks))) == Concat(chunks)
      && !Receive(2 * n, [], Bytewise(Concat(chunks))).dropped
  {
    var line, rest := Repeat('x', n), [NEWLINE] + Repeat('x', n - 1);
    var chunks := [line, ['x'], rest];
    var s := Repeat('x', n + 1) + rest;
    assert Concat(chunks) == s by {
      assert chunks[1..] == [['x'], rest] && chunks[1..][1..] == [rest];
      assert Concat([rest]) == rest;
      assert Concat([['x'], rest]) == ['x'] + rest;
    }
    assert Overflows(2 * n, [], chunks, 2) by {
      assert chunks[..2] == [line, ['x']] && chunks[..2][1..] == [['x']];
      assert Concat([['x']]) == ['x'];
      assert [] + Concat(chunks[..2]) == Repeat('x', n + 1);
      NoFrames(Repeat('x', n + 1));
    }
    DroppedIffOverflow(2 * n, [], chunks);
    BytewiseConcat(s);
    forall i, j | 0 <= i <= j <= |s| && NEWLINE !in s[i..j]
      ensures j - i <= n + 1
    {
      if i <= n + 1 < j {
        NewlineInside(s, i, j, n + 1);
      }
    }
    ShortLinesAreNeverDropped(2 * n, Bytewise(s), 1, n + 1);
  }
}
