/**
 The receive loop of the stream server: it appends each chunk to a fixed buffer, sends a
 reply for every complete line, and shifts what is left down to the front.
 */
module FramingServer {
  import opened Framing

  datatype Reply = Reply(number: nat, frame: seq<char>)

  /** Replies to `frames`, numbered from `start`. */
  function Replies(start: nat, frames: seq<seq<char>>): seq<Reply>
    decreases |frames|
  {
    if frames == [] then [] else [Reply(start, frames[0])] + Replies(start + 1, frames[1..])
  }

  lemma {:induction false} RepliesConcat(start: nat, xs: seq<seq<char>>, ys: seq<seq<char>>)
    ensures Replies(start, xs + ys) == Replies(start, xs) + Replies(start + |xs|, ys)
    decreases |xs|
  {
    if xs == [] {
      assert xs + ys == ys;
    } else {
      assert (xs + ys)[1..] == xs[1..] + ys;
      RepliesConcat(start + 1, xs[1..], ys);
    }
  }

  lemma FirstReply(number: nat, line: seq<char>, frames: seq<seq<char>>)
    ensures Replies(number, [line] + frames) == [Reply(number, line)] + Replies(number + 1, frames)
  {
    assert ([line] + frames)[1..] == frames;
  }

  /** The replies to a connection: those to its first chunk, then the others. */
  lemma NextChunk(capacity: nat, number: nat, left: seq<char>, chunks: seq<seq<char>>)
    requires chunks != [] && |left| + |chunks[0]| <= capacity
    ensures var all := left + chunks[0];
      var rest := Framing.Receive(capacity, Leftover(all), chunks[1..]);
      Replies(number, Framing.Receive(capacity, left, chunks).frames)
      == Replies(number, Frames(all)) + Replies(number + |Frames(all)|, rest.frames)
  {
    var all := left + chunks[0];
    RepliesConcat(number, Frames(all), Framing.Receive(capacity, Leftover(all), chunks[1..]).frames);
  }

  /** What is sent, and what is still to come of the chunks left, make up the whole connection. */
  ghost predicate Underway(capacity: nat, whole: Outcome, sent: seq<Reply>, number: nat,
                           left: seq<char>, chunks: seq<seq<char>>) {
    var rest := Framing.Receive(capacity, left, chunks);
    && whole.dropped == rest.dropped
    && sent + Replies(number, rest.frames) == Replies(0, whole.frames)
  }

  lemma UnderwayOn(capacity: nat, whole: Outcome, sent: seq<Reply>, number: nat,
                   left: seq<char>, chunks: seq<seq<char>>)
    requires Underway(capacity, whole, sent, number, left, chunks)
    requires chunks != [] && |left| + |chunks[0]| <= capacity
    ensures var all := left + chunks[0];
      Underway(capacity, whole, sent + Replies(number, Frames(all)), number + |Frames(all)|, Leftover(all), chunks[1..])
  {
    var all := left + chunks[0];
    var rest := Framing.Receive(capacity, Leftover(all), chunks[1..]);
    NextChunk(capacity, number, left, chunks);
    assert sent + (Replies(number, Frames(all)) + Replies(number + |Frames(all)|, rest.frames))
        == (sent + Replies(number, Frames(all))) + Replies(number + |Frames(all)|, rest.frames);
  }

  /** It ends when no chunk is left, or one does not fit. */
  lemma UnderwayEnds(capacity: nat, whole: Outcome, sent: seq<Reply>, number: nat,
                     left: seq<char>, chunks: seq<seq<char>>)
    requires Underway(capacity, whole, sent, number, left, chunks)
    requires chunks != [] ==> |left| + |chunks[0]| > capacity
    ensures whole.dropped == (chunks != []) && sent == Replies(0, whole.frames)
  {
    assert sent + [] == sent;
  }

  // ---------------------------------------------------------------- what a client is answered

  /** Lines, each ended by a newline character, and then a piece that is not ended. */
  function Text(lines: seq<seq<char>>, rest: seq<char>): seq<char> {
    if lines == [] then rest else lines[0] + ['\n'] + Text(lines[1..], rest)
  }

  ghost predicate IsText(s: seq<char>, lines: seq<seq<char>>, rest: seq<char>) {
    s == Text(lines, rest) && '\n' !in rest && forall k :: 0 <= k < |lines| ==> '\n' !in lines[k]
  }

  /** One reply for each line, with its number from 0 on. */
  ghost predicate Answers(sent: seq<Reply>, lines: seq<seq<char>>) {
    |sent| == |lines| && forall k :: 0 <= k < |lines| ==> sent[k] == Reply(k, lines[k])
  }

  lemma {:induction false} RepliesAre(start: nat, frames: seq<seq<char>>)
    ensures |Replies(start, frames)| == |frames|
    ensures forall k :: 0 <= k < |frames| ==> Replies(start, frames)[k] == Reply(start + k, frames[k])
    decreases |frames|
  {
    if frames != [] {
      RepliesAre(start + 1, frames[1..]);
    }
  }

  lemma RepliesLength(start: nat, frames: seq<seq<char>>)
    ensures |Replies(start, frames)| == |frames|
  {
    RepliesAre(start, frames);
  }

  lemma {:induction false} TextIsJoined(lines: seq<seq<char>>, rest: seq<char>)
    ensures Text(lines, rest) == Join(lines) + rest
    decreases |lines|
  {
    if lines != [] {
      TextIsJoined(lines[1..], rest);
      Reassociate(lines[0] + ['\n'], Join(lines[1..]), rest);
    }
  }

  /** A connection that is kept answers every complete line of what the client sent, in order. */
  lemma KeptConnectionAnswers(capacity: nat, chunks: seq<seq<char>>, lines: seq<seq<char>>, rest: seq<char>)
    requires !Framing.Receive(capacity, [], chunks).dropped && IsText(Concat(chunks), lines, rest)
    ensures Answers(Replies(0, Framing.Receive(capacity, [], chunks).frames), lines)
  {
    ReceiveSplits(capacity, [], chunks);
    assert [] + Concat(chunks) == Concat(chunks);
    TextIsJoined(lines, rest);
    SplitIsUnique(Concat(chunks), lines, rest);
    RepliesAre(0, lines);
  }

  /** What is delivered before the first chunk that does not fit. */
  lemma {:induction false} CutOff(capacity: nat, left: seq<char>, chunks: seq<seq<char>>, k: nat)
    requires '\n' !in left && Overflows(capacity, left, chunks, k)
    requires forall m: nat :: m < k ==> !Overflows(capacity, left, chunks, m)
    ensures !Framing.Receive(capacity, left, chunks[..k]).dropped
    ensures Framing.Receive(capacity, left, chunks).frames == Framing.Receive(capacity, left, chunks[..k]).frames
    decreases k
  {
    FirstOverflow(capacity, left, chunks);
    if k > 0 {
      var next := Leftover(left + chunks[0]);
      SplitIsSplit(left + chunks[0]);
      assert !Overflows(capacity, left, chunks, 0);
      LaterOverflow(capacity, left, chunks, k - 1);
      forall m: nat | m < k - 1
        ensures !Overflows(capacity, next, chunks[1..], m)
      {
        LaterOverflow(capacity, left, chunks, m);
      }
      CutOff(capacity, next, chunks[1..], k - 1);
      assert chunks[..k][0] == chunks[0] && chunks[..k][1..] == chunks[1..][..k - 1];
    }
  }

  /** One that is dropped has answered the lines complete before the read that did not fit. */
  lemma DroppedConnectionAnswers(capacity: nat, chunks: seq<seq<char>>, k: nat, lines: seq<seq<char>>, rest: seq<char>)
    requires Overflows(capacity, [], chunks, k) && forall m: nat :: m < k ==> !Overflows(capacity, [], chunks, m)
    requires IsText(Concat(chunks[..k]), lines, rest)
    ensures Answers(Replies(0, Framing.Receive(capacity, [], chunks).frames), lines)
  {
    CutOff(capacity, [], chunks, k);
    KeptConnectionAnswers(capacity, chunks[..k], lines, rest);
  }

  class Server {
    const chunkSize: nat
    const frameBuf: array<char>
    var used: nat      // frame_nbytes
    var number: nat    // i, the number of the next frame

    ghost predicate Valid()
      reads this, frameBuf
    {
      && frameBuf.Length == 2 * chunkSize
      && used <= frameBuf.Length
      && NEWLINE !in frameBuf[..used]
    }

    constructor (size: nat)
      ensures Valid() && chunkSize == size && fresh(frameBuf)
      ensures used == 0 && number == 0
    {
      chunkSize := size;
      frameBuf := new char[2 * size](_ => '\0');
      used, number := 0, 0;
    }

    /** memchr(frame_buf + p, '\n', len) in the text at the front of the buffer. */
    method FindNewline(p: nat, len: nat, ghost text: seq<char>) returns (found: bool, ch: nat)
      requires p + len <= frameBuf.Length && text == frameBuf[..p + len]
      ensures ch == LineEnd(text, p)
      ensures found <==> ch < p + len
    {
      ch := p;
      while ch < p + len
        invariant p <= ch <= p + len
        invariant LineEnd(text, p) == LineEnd(text, ch)
      {
        if frameBuf[ch] == NEWLINE {
          return true, ch;
        }
        ch := ch + 1;
      }
      return false, ch;
    }

    /** memmove(frame_buf, frame_buf + p, len), byte by byte from the front. */
    method ShiftDown(p: nat, len: nat)
      requires p + len <= frameBuf.Length
      modifies frameBuf
      ensures frameBuf[..len] == old(frameBuf[p..p + len])
    {
      for k := 0 to len
        invariant frameBuf[..k] == old(frameBuf[p..p + k])
        invariant forall m :: p + k <= m < p + len ==> frameBuf[m] == old(frameBuf[m])
      {
        frameBuf[k] := frameBuf[p + k];
      }
    }

    /** memcpy(frame_buf + frame_nbytes, buf, nbytes) */
    method Append(chunk: seq<char>)
      requires used + |chunk| <= frameBuf.Length
      modifies frameBuf, `used
      ensures used == old(used) + |chunk|
      ensures frameBuf[..used] == old(frameBuf[..used]) + chunk
    {
      for k := 0 to |chunk|
        invariant used == old(used) && used + k <= frameBuf.Length
        invariant frameBuf[..used] == old(frameBuf[..used])
        invariant frameBuf[used..used + k] == chunk[..k]
      {
        frameBuf[used + k] := chunk[k];
      }
      assert frameBuf[..used + |chunk|] == frameBuf[..used] + frameBuf[used..used + |chunk|];
      used := used + |chunk|;
    }

    /** Replies to the line from `p` to `ch`. */
    method ReplyToLine(p: nat, ch: nat, ghost text: seq<char>) returns (reply: Reply)
      requires used <= frameBuf.Length && text == frameBuf[..used] && p <= ch < used && ch == LineEnd(text, p)
      modifies `number
      ensures number == old(number) + 1
      ensures Replies(old(number), FramesFrom(text, p)) == [reply] + Replies(number, FramesFrom(text, ch + 1))
      ensures LastStart(text, p) == LastStart(text, ch + 1)
    {
      ghost var rest := FramesFrom(text, ch + 1);
      var line := frameBuf[p..ch];
      assert line == text[p..ch];
      FirstReply(number, line, rest);
      reply := Reply(number, line);
      number := number + 1;
    }

    /** Replies to the lines of the text, one after the other; `p` ends behind the last of them. */
    method ReplyToLines(ghost text: seq<char>) returns (sent: seq<Reply>, p: nat)
      requires used <= frameBuf.Length && text == frameBuf[..used]
      modifies `number
      ensures p == LastStart(text, 0)
      ensures sent == Replies(old(number), FramesFrom(text, 0))
      ensures number == old(number) + |sent|
    {
      ghost var replies, last := Replies(number, FramesFrom(text, 0)), LastStart(text, 0);
      sent, p := [], 0;
      var found, ch := FindNewline(p, used, text);
      while found
        invariant p <= ch <= used && ch == LineEnd(text, p) && (found <==> ch < used)
        invariant LastStart(text, p) == last
        invariant sent + Replies(number, FramesFrom(text, p)) == replies
        invariant number == old(number) + |sent|
        decreases used - p
      {
        var reply := ReplyToLine(p, ch, text);
        sent := sent + [reply];
        p := ch + 1;
        found, ch := FindNewline(p, used - p, text);
      }
      assert sent + [] == sent;
    }

    /** One received chunk: replies to the lines it completes, or drops the connection. */
    method Receive(chunk: seq<char>) returns (sent: seq<Reply>, dropped: bool)
      requires Valid() && |chunk| <= chunkSize
      modifies this, frameBuf
      ensures Valid()
      ensures dropped <==> old(used) + |chunk| > 2 * chunkSize
      ensures dropped ==> sent == [] && used == 0
      ensures !dropped ==>
                var all := old(frameBuf[..used]) + chunk;
                && sent == Replies(old(number), Frames(all))
                && number == old(number) + |Frames(all)|
                && frameBuf[..used] == Leftover(all)
    {
      if used + |chunk| > frameBuf.Length {
        used := 0;
        return [], true;
      }
      Append(chunk);
      ghost var all := frameBuf[..used];
      SplitIsSplit(all);
      var p;
      sent, p := ReplyToLines(all);
      RepliesLength(old(number), Frames(all));
      if p > 0 {
        var len := used - p;
        if len > 0 {
          ShiftDown(p, len);
        }
        used := len;
      }
      return sent, false;
    }

    /** One connection, until the client closes it or is dropped. The frames sent are those
        of module Framing, and the buffer is empty again for the next client. */
    method Serve(chunks: seq<seq<char>>) returns (sent: seq<Reply>, dropped: bool)
      requires Valid() && used == 0
      requires forall k :: 0 <= k < |chunks| ==> |chunks[k]| <= chunkSize
      modifies this, frameBuf
      ensures Valid() && used == 0
      ensures var outcome := Framing.Receive(2 * chunkSize, [], chunks);
        dropped == outcome.dropped && sent == Replies(0, outcome.frames)
      ensures forall lines, rest :: !dropped && IsText(Concat(chunks), lines, rest) ==> Answers(sent, lines)
    {
      sent, dropped, number := [], false, 0;
      ghost var whole := Framing.Receive(2 * chunkSize, [], chunks);
      assert frameBuf[..used] == [] && sent + Replies(number, whole.frames) == Replies(0, whole.frames);
      var k := 0;
      assert chunks[k..] == chunks;
      while k < |chunks| && !dropped
        invariant k <= |chunks| && Valid()
        invariant dropped ==> used == 0 && whole.dropped && sent == Replies(0, whole.frames)
        invariant !dropped ==> Underway(2 * chunkSize, whole, sent, number, frameBuf[..used], chunks[k..])
      {
        ghost var left, rest := frameBuf[..used], chunks[k..];
        assert rest[0] == chunks[k] && rest[1..] == chunks[k + 1..];
        if used + |chunks[k]| <= 2 * chunkSize {
          UnderwayOn(2 * chunkSize, whole, sent, number, left, rest);
        } else {
          UnderwayEnds(2 * chunkSize, whole, sent, number, left, rest);
        }
        var replies;
        replies, dropped := this.Receive(chunks[k]);
        sent := sent + replies;
        k := k + 1;
      }
      if !dropped {
        UnderwayEnds(2 * chunkSize, whole, sent, number, frameBuf[..used], chunks[k..]);
        forall lines, rest | IsText(Concat(chunks), lines, rest)
          ensures Answers(sent, lines)
        {
          KeptConnectionAnswers(2 * chunkSize, chunks, lines, rest);
        }
      }
      used := 0;
    }
  }
}
