/**
 Which streams the length limit of the receiver can cost their connection, and which it
 must: exact conditions on the stream alone, over all ways of cutting it into reads.
 */
module FramingLimit {
  import opened Framing

  /** The stream arrives in these reads, of at most `n` bytes each. */
  ghost predicate Cuts(s: seq<char>, n: nat, chunks: seq<seq<char>>) {
    Concat(chunks) == s && forall k :: 0 <= k < |chunks| ==> |chunks[k]| <= n
  }

  ghost predicate CanBeKept(s: seq<char>, capacity: nat, n: nat) {
    exists chunks :: Cuts(s, n, chunks) && !Receive(capacity, [], chunks).dropped
  }

  ghost predicate CanBeDropped(s: seq<char>, capacity: nat, n: nat) {
    exists chunks :: Cuts(s, n, chunks) && Receive(capacity, [], chunks).dropped
  }

  // ---------------------------------------------------------------- kept by some cutting

  /** Every complete line fits the buffer with its newline, and so does the leftover. */
  ghost predicate LinesFit(s: seq<char>, capacity: nat) {
    && (forall i :: 0 <= i < |Frames(s)| ==> |Frames(s)[i]| < capacity)
    && |Leftover(s)| <= capacity
  }

  lemma CutBytewise(s: seq<char>, n: nat)
    requires n >= 1
    ensures Cuts(s, n, Bytewise(s))
  {
    BytewiseConcat(s);
  }

  /** The part of a stream behind its last newline begins the next line, or the leftover. */
  lemma LeftoverGrows(left: seq<char>, t: seq<char>)
    requires NEWLINE !in left && t != []
    ensures Frames(left + t) == [] ==> |Leftover(left + t)| > |left|
    ensures Frames(left + t) != [] ==> |Frames(left + t)[0]| >= |left|
  {
    var s := left + t;
    SplitIsSplit(s);
    assert forall j :: 0 <= j < |left| ==> s[j] == left[j] != NEWLINE;
    if Frames(s) != [] {
    }
  }

  /** At no point of a stream whose lines fit is the buffer full of one line. */
  lemma RoomForOneByte(s: seq<char>, capacity: nat, k: nat)
    requires LinesFit(s, capacity) && k < |s|
    ensures |Leftover(s[..k])| < capacity
  {
    var left, t := Leftover(s[..k]), s[k..];
    assert s == s[..k] + t;
    SplitIsSplit(s[..k]);
    SplitConcat(s[..k], t);
    LeftoverGrows(left, t);
    if Frames(left + t) != [] {
      assert Frames(s)[|Frames(s[..k])|] == Frames(left + t)[0];
    }
  }

  lemma {:induction false} BytewisePrefix(s: seq<char>, k: nat)
    requires k <= |s|
    ensures Concat(Bytewise(s)[..k]) == s[..k]
  {
    assert Bytewise(s)[..k] == Bytewise(s[..k]);
    BytewiseConcat(s[..k]);
  }

  lemma BytewiseIsKept(s: seq<char>, capacity: nat)
    requires LinesFit(s, capacity)
    ensures !Receive(capacity, [], Bytewise(s)).dropped
  {
    var chunks := Bytewise(s);
    DroppedIffOverflow(capacity, [], chunks);
    forall k: nat | k < |chunks|
      ensures !Overflows(capacity, [], chunks, k)
    {
      BytewisePrefix(s, k);
      assert [] + Concat(chunks[..k]) == s[..k];
      RoomForOneByte(s, capacity, k);
    }
  }

  /** A stream is kept by some cutting into reads of at most `n` bytes if and only if its
      complete lines are shorter than the buffer and its leftover is no longer than it. */
  lemma KeptBySomeCutting(s: seq<char>, capacity: nat, n: nat)
    requires n >= 1
    ensures CanBeKept(s, capacity, n) <==> LinesFit(s, capacity)
  {
    if CanBeKept(s, capacity, n) {
      var chunks :| Cuts(s, n, chunks) && !Receive(capacity, [], chunks).dropped;
      LongLinesAreDropped(capacity, [], chunks);
      assert [] + Concat(chunks) == s;
    }
    if LinesFit(s, capacity) {
      CutBytewise(s, n);
      BytewiseIsKept(s, capacity);
    }
  }

  // ---------------------------------------------------------------- dropped by some cutting

  function Min(x: int, y: int): int {
    if x < y then x else y
  }

  /** At position `i` of the stream a longest read does not fit beside the unfinished line. */
  ghost predicate FullAt(s: seq<char>, capacity: nat, n: nat, i: nat) {
    i <= |s| && |Leftover(s[..i])| + Min(n, |s| - i) > capacity
  }

  lemma ConcatOfConcat(xs: seq<seq<char>>, ys: seq<seq<char>>)
    ensures Concat(xs + ys) == Concat(xs) + Concat(ys)
  {
    ConcatPrefix(xs + ys, |xs|);
    assert (xs + ys)[..|xs|] == xs && (xs + ys)[|xs|..] == ys;
  }

  /** Byte by byte up to `i`, then one longest read, then byte by byte again. */
  function OneLongRead(s: seq<char>, n: nat, i: nat): seq<seq<char>>
    requires i <= |s|
  {
    var m := Min(n, |s| - i);
    Bytewise(s[..i]) + [s[i..i + m]] + Bytewise(s[i + m..])
  }

  lemma OneLongReadCuts(s: seq<char>, n: nat, i: nat)
    requires i <= |s| && n >= 1
    ensures Cuts(s, n, OneLongRead(s, n, i))
  {
    var m := Min(n, |s| - i);
    var xs, read, ys := Bytewise(s[..i]), [s[i..i + m]], Bytewise(s[i + m..]);
    ConcatOfConcat(xs + read, ys);
    ConcatOfConcat(xs, read);
    BytewiseConcat(s[..i]);
    BytewiseConcat(s[i + m..]);
    assert read[1..] == [] && Concat(read) == s[i..i + m];
    assert s == s[..i] + s[i..i + m] + s[i + m..];
  }

  lemma OneLongReadOverflows(s: seq<char>, capacity: nat, n: nat, i: nat)
    requires FullAt(s, capacity, n, i)
    ensures Overflows(capacity, [], OneLongRead(s, n, i), i)
  {
    var chunks := OneLongRead(s, n, i);
    assert chunks[..i] == Bytewise(s[..i]);
    BytewiseConcat(s[..i]);
    assert [] + Concat(chunks[..i]) == s[..i];
  }

  /** Where a read overflowed, a longest one would have. */
  lemma OverflowIsFull(s: seq<char>, capacity: nat, n: nat, chunks: seq<seq<char>>, k: nat)
    requires Cuts(s, n, chunks) && Overflows(capacity, [], chunks, k)
    ensures FullAt(s, capacity, n, |Concat(chunks[..k])|)
  {
    ConcatPrefix(chunks, k);
    ConcatPrefix(chunks[k..], 1);
    var before := Concat(chunks[..k]);
    assert s[..|before|] == before;
    assert [] + before == before;
    assert chunks[k..][..1] == [chunks[k]] && [chunks[k]][1..] == [];
    assert |Concat(chunks[k..])| >= |chunks[k]|;
  }

  /** A stream is dropped by some cutting into reads of at most `n` bytes if and only if at
      some position a longest read does not fit beside the unfinished line. */
  lemma DroppedBySomeCutting(s: seq<char>, capacity: nat, n: nat)
    requires n >= 1
    ensures CanBeDropped(s, capacity, n) <==> exists i: nat :: FullAt(s, capacity, n, i)
  {
    if CanBeDropped(s, capacity, n) {
      var chunks :| Cuts(s, n, chunks) && Receive(capacity, [], chunks).dropped;
      DroppedIffOverflow(capacity, [], chunks);
      var k: nat :| Overflows(capacity, [], chunks, k);
      OverflowIsFull(s, capacity, n, chunks, k);
    }
    if i: nat :| FullAt(s, capacity, n, i) {
      var chunks := OneLongRead(s, n, i);
      OneLongReadCuts(s, n, i);
      OneLongReadOverflows(s, capacity, n, i);
      DroppedIffOverflow(capacity, [], chunks);
    }
  }

  /** The cutting decides exactly for the streams whose lines fit although somewhere a
      longest read does not. */
  lemma CuttingDecides(s: seq<char>, capacity: nat, n: nat)
    requires n >= 1
    ensures CanBeKept(s, capacity, n) && CanBeDropped(s, capacity, n)
       <==> LinesFit(s, capacity) && exists i: nat :: FullAt(s, capacity, n, i)
  {
    KeptBySomeCutting(s, capacity, n);
    DroppedBySomeCutting(s, capacity, n);
  }

  /** A stream no longer than the buffer is never dropped. */
  lemma ShortStreamsAreKept(s: seq<char>, capacity: nat, n: nat)
    requires n >= 1 && |s| <= capacity
    ensures !CanBeDropped(s, capacity, n)
  {
    DroppedBySomeCutting(s, capacity, n);
    forall i: nat | i <= |s|
      ensures !FullAt(s, capacity, n, i)
    {
    }
  }
}
