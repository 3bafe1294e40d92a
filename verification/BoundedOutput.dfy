/** The output of a run: both streams share one limit, and what is kept is the beginning. */
module BoundedOutputs {
  import opened TaskLogs

  /** The first bytes of a history, of either stream. */
  ghost function Beginning(history: seq<Tagged>, limit: nat, stream: Stream): seq<Byte> {
    Of(history[..Min(limit, |history|)], stream)
  }

  class BoundedOutput {
    const limit: nat
    var stdout: seq<Byte>
    var stderr: seq<Byte>
    var size: nat
    var truncated: bool
    var observedStdout: nat
    var observedStderr: nat
    ghost var history: seq<Tagged>

    /** What is kept of either stream is its part of the first `limit` bytes of both; something was
        cut off exactly when there was more. */
    ghost predicate Valid()
      reads this
    {
      && size == Min(limit, |history|)
      && stdout == Beginning(history, limit, Stdout) && stderr == Beginning(history, limit, Stderr)
      && (truncated <==> |history| > limit)
    }

    constructor (limit: nat)
      ensures Valid() && this.limit == limit && history == [] && observedStdout == 0 && observedStderr == 0
    {
      this.limit := limit;
      stdout, stderr, size, truncated, observedStdout, observedStderr, history := [], [], 0, false, 0, 0, [];
    }

    /** `_append`; diagnostics of the server are kept but not counted as observed. */
    method Append(stream: Stream, data: seq<Byte>, observed: bool)
      requires Valid()
      modifies this
      ensures Valid() && history == old(history) + Tag(stream, data)
      ensures observedStdout == old(observedStdout) + if observed && stream == Stdout then |data| else 0
      ensures observedStderr == old(observedStderr) + if observed && stream == Stderr then |data| else 0
    {
      if observed {
        if stream == Stdout {
          observedStdout := observedStdout + |data|;
        } else {
          observedStderr := observedStderr + |data|;
        }
      }
      BeginningGrows(history, stream, data, limit, Stdout);
      BeginningGrows(history, stream, data, limit, Stderr);
      history := history + Tag(stream, data);
      var remaining: int := limit - size;
      if remaining <= 0 {
        truncated := truncated || data != [];
        return;
      }
      var accepted := if |data| <= remaining then data else data[..remaining];
      if stream == Stdout {
        stdout := stdout + accepted;
      } else {
        stderr := stderr + accepted;
      }
      size := size + |accepted|;
      truncated := truncated || |accepted| < |data|;
    }
  }

  /** New bytes extend the beginning of their stream as far as the limit allows, and leave the other. */
  lemma {:induction false} BeginningGrows(history: seq<Tagged>, stream: Stream, data: seq<Byte>, limit: nat, other: Stream)
    ensures var room := Min(limit - Min(limit, |history|), |data|);
      Beginning(history + Tag(stream, data), limit, other) == Beginning(history, limit, other) + if other == stream then data[..room] else []
    ensures data[..|data|] == data
  {
    var room := Min(limit - Min(limit, |history|), |data|);
    var longer := history + Tag(stream, data);
    if room > 0 {
      TagSlice(stream, data, 0, room);
      assert history[..|history|] == history && data[0..room] == data[..room];
      assert longer[..Min(limit, |longer|)] == history + Tag(stream, data)[0..room];
      OfAppend(history, Tag(stream, data[..room]), other);
      OfTag(stream, data[..room], other);
    } else {
      assert longer[..Min(limit, |longer|)] == history[..Min(limit, |history|)];
      assert Beginning(history, limit, other) + [] == Beginning(history, limit, other);
    }
  }
}
