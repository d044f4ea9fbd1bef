/**
 * The bounded output buffer of the monitor: the most recent lines the child
 * printed, oldest first, at most `MaxOutputLines` of them. The reader thread
 * is its only writer and the health check its only reader; the lock that
 * serialises them is modelled by making every append and every snapshot one
 * step.
 */
module OutputBuffer {
  import opened Text

  /** The capacity of the buffer. */
  const MaxOutputLines: nat := 100

  /** The last `n` elements of `s` (all of `s` when it is shorter), in order. */
  function LastN<T>(s: seq<T>, n: nat): seq<T>
  {
    if |s| <= n then s else s[|s| - n..]
  }

  /** LastN keeps exactly min(|s|, n) elements, and they are the end of `s`. */
  lemma LastNSpec<T>(s: seq<T>, n: nat)
    ensures |LastN(s, n)| == if |s| <= n then |s| else n
    ensures LastN(s, n) == s[|s| - |LastN(s, n)|..]
  {
  }

  /** Trimming to the last `n` in between takes nothing away that trimming at the end would keep. */
  lemma LastNConcat<T>(a: seq<T>, b: seq<T>, n: nat)
    ensures LastN(LastN(a, n) + b, n) == LastN(a + b, n)
  {
    var a' := LastN(a, n);
    LastNSpec(a, n);
    assert a + b == a[..|a| - |a'|] + (a' + b);
    var l := LastN(a' + b, n);
    var r := LastN(a + b, n);
    LastNSpec(a' + b, n);
    LastNSpec(a + b, n);
    assert |l| == |r|;
    forall k | 0 <= k < |l| ensures l[k] == r[k] {
      assert l[k] == (a' + b)[|a' + b| - |l| + k];
      assert r[k] == (a + b)[|a + b| - |r| + k];
    }
  }

  /** `LastNConcat` for a buffer that takes in two blocks `x` and `y` making up `z`. */
  lemma LastNOfBlocks<T>(lines: seq<T>, x: seq<T>, y: seq<T>, z: seq<T>, n: nat)
    requires z == x + y
    ensures LastN(LastN(lines + x, n) + y, n) == LastN(lines + z, n)
  {
    LastNConcat(lines + x, y, n);
    assert (lines + x) + y == lines + z;
  }

  /**
   * The lines the reader keeps out of the raw lines `raw`, in order: an empty
   * (falsy) raw line is skipped, any other is kept stripped.
   */
  function Stored(raw: seq<string>): seq<string>
  {
    if raw == [] then []
    else
      var last := raw[|raw| - 1];
      Stored(raw[..|raw| - 1]) + (if last == "" then [] else [Strip(last)])
  }

  /** The reader keeps at most one line per raw line, and every line it keeps is already stripped. */
  lemma {:induction false} StoredSpec(raw: seq<string>)
    ensures |Stored(raw)| <= |raw|
    ensures forall k :: 0 <= k < |Stored(raw)| ==> Strip(Stored(raw)[k]) == Stored(raw)[k]
  {
    if raw != [] {
      var last := raw[|raw| - 1];
      StoredSpec(raw[..|raw| - 1]);
      StripIdempotent(last);
    }
  }

  /** Reading two pieces of the stream keeps what reading them as one would. */
  lemma {:induction false} StoredConcat(a: seq<string>, b: seq<string>)
    ensures Stored(a + b) == Stored(a) + Stored(b)
  {
    if b == [] {
      assert a + b == a;
    } else {
      var b' := b[..|b| - 1];
      var last := b[|b| - 1];
      var tail := if last == "" then [] else [Strip(last)];
      assert (a + b)[..|a + b| - 1] == a + b';
      assert (a + b)[|a + b| - 1] == last;
      assert Stored(a + b) == Stored(a + b') + tail;
      assert Stored(b) == Stored(b') + tail;
      StoredConcat(a, b');
    }
  }

  /** An empty raw line leaves nothing; a whitespace-only one is kept as the empty line. */
  lemma StoredSingle(raw: string)
    ensures raw == "" ==> Stored([raw]) == []
    ensures raw != "" && AllSpace(raw) ==> Stored([raw]) == [""]
    ensures raw != "" ==> Stored([raw]) == [Strip(raw)]
  {
    assert [raw][..0] == [];
    StripEmptyIff(raw);
  }

  /** The buffer `lines` after the reader has taken in the raw lines `raw`. */
  function Feed(lines: seq<string>, raw: seq<string>): seq<string>
  {
    LastN(lines + Stored(raw), MaxOutputLines)
  }

  /** The buffer never holds more than `MaxOutputLines` lines. */
  lemma FeedBound(lines: seq<string>, raw: seq<string>)
    ensures |Feed(lines, raw)| <= MaxOutputLines
  {
    LastNSpec(lines + Stored(raw), MaxOutputLines);
  }

  /** Feeding the stream in pieces gives the same buffer as feeding it at once. */
  lemma FeedConcat(lines: seq<string>, a: seq<string>, b: seq<string>)
    ensures Feed(Feed(lines, a), b) == Feed(lines, a + b)
  {
    StoredConcat(a, b);
    LastNOfBlocks(lines, Stored(a), Stored(b), Stored(a + b), MaxOutputLines);
  }

  /** Starting from the empty buffer, the buffer holds the last (at most 100) lines kept, in arrival order. */
  lemma FeedFromEmpty(raw: seq<string>)
    ensures Feed([], raw) == LastN(Stored(raw), MaxOutputLines)
    ensures |Stored(raw)| <= MaxOutputLines ==> Feed([], raw) == Stored(raw)
  {
    assert [] + Stored(raw) == Stored(raw);
    LastNSpec(Stored(raw), MaxOutputLines);
  }

  /** The shared list `output_buffer` of the monitor. */
  class Buffer {
    var lines: seq<string>

    ghost predicate Valid()
      reads this
    {
      |lines| <= MaxOutputLines
    }

    constructor ()
      ensures Valid() && lines == []
    {
      lines := [];
    }

    /** Appends one line under the lock; when the buffer then holds too many, drops the oldest. */
    method Append(line: string)
      requires Valid()
      modifies this
      ensures Valid()
      ensures lines == LastN(old(lines) + [line], MaxOutputLines)
      ensures |old(lines)| == MaxOutputLines ==> lines == old(lines)[1..] + [line]
      ensures |old(lines)| < MaxOutputLines ==> lines == old(lines) + [line]
    {
      LastNSpec(lines + [line], MaxOutputLines);
      lines := lines + [line];
      if |lines| > MaxOutputLines {
        lines := lines[1..];
      }
    }

    /** One iteration of the reader thread: a non-empty raw line is stripped and appended. */
    method ReadLine(raw: string)
      requires Valid()
      modifies this
      ensures Valid()
      ensures lines == Feed(old(lines), [raw])
      ensures raw == "" ==> lines == old(lines)
    {
      StoredSingle(raw);
      LastNSpec(lines, MaxOutputLines);
      if raw != "" {
        var lineStr := Strip(raw);
        Append(lineStr);
      }
    }

    /** The reader thread draining `stream`, line by line, into the buffer. */
    method ReadOutput(stream: seq<string>)
      requires Valid()
      modifies this
      ensures Valid()
      ensures lines == Feed(old(lines), stream)
    {
      var i := 0;
      while i < |stream|
        invariant 0 <= i <= |stream|
        invariant Valid()
        invariant lines == Feed(old(lines), stream[..i])
      {
        ghost var before := lines;
        ReadLine(stream[i]);
        FeedBound(old(lines), stream[..i + 1]);
        FeedConcat(old(lines), stream[..i], [stream[i]]);
        assert stream[..i] + [stream[i]] == stream[..i + 1];
        i := i + 1;
      }
      assert stream[..i] == stream;
    }

    /** The text `"\n".join(output_buffer)` taken under the lock. */
    method Snapshot() returns (text: string)
      ensures text == Join("\n", lines)
      ensures text == "" <==> lines == [] || lines == [""]
    {
      JoinEmptyIff(lines);
      text := Join("\n", lines);
    }
  }
}
