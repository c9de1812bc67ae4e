/** The copy loop of `proxyRadio` (server/subsonic/radio.go lines 219-246), with the upstream
    reader, the response writer and the cancellation flag replaced by what
    they were observed to do in each iteration. */
module Relay {
  import opened Base
  import opened Events

  /** `buf := make([]byte, 8192)`: no read returns more than this. */
  const BufferSize: nat := 8192

  /** `buf[0:count]` after one read. */
  type Chunk = s: seq<Byte> | |s| <= BufferSize

  /** What one pass through the loop observes: the chunk and error of
      `reader.Read(buf)`, the value of `done` right after that read, and
      whether `w.Write` would fail if it is reached. */
  datatype Iteration = Iteration(chunk: Chunk, readFailed: bool, cancelled: bool, writeFailed: bool)

  /** A finite body: once the observed iterations run out, every read returns
      no bytes together with io.EOF. */
  const EndOfBody: Iteration := Iteration([], true, false, false)

  function At(steps: seq<Iteration>, i: nat): Iteration {
    if i < |steps| then steps[i] else EndOfBody
  }

  /** Why the loop ended. Only the two failures are logged. */
  datatype Stop = EndOfStream | Cancelled | ReadFailed | WriteFailed

  /** The three `break`s of one iteration, in source order: `count == 0 || done`,
      then a read error, then a write error. */
  function Decide(it: Iteration): Option<Stop> {
    if |it.chunk| == 0 then Some(EndOfStream)
    else if it.cancelled then Some(Cancelled)
    else if it.readFailed then Some(ReadFailed)
    else if it.writeFailed then Some(WriteFailed)
    else None
  }

  predicate Continues(it: Iteration) {
    Decide(it).None?
  }

  /** The first iteration at or after `i` that ends the loop. */
  function FirstStopFrom(steps: seq<Iteration>, i: nat): (k: nat)
    requires i <= |steps|
    ensures i <= k <= |steps|
    ensures !Continues(At(steps, k))
    ensures forall j :: i <= j < k ==> Continues(At(steps, j))
    decreases |steps| - i
  {
    if !Continues(At(steps, i)) then i else FirstStopFrom(steps, i + 1)
  }

  function StopIndex(steps: seq<Iteration>): nat {
    FirstStopFrom(steps, 0)
  }

  /** The bytes of the chunks of iterations `0 .. k-1`, in order. */
  function ChunksBefore(steps: seq<Iteration>, k: nat): seq<Byte> {
    if k == 0 then [] else ChunksBefore(steps, k - 1) + At(steps, k - 1).chunk
  }

  datatype Run = Run(trace: seq<Event>, stop: Stop)

  /** The loop, run from iteration `i`: each pass reads; a pass that does not
      break on the read writes the chunk it read. */
  function RunFrom(steps: seq<Iteration>, i: nat): (r: Run)
    requires i <= |steps|
    ensures forall e :: e in r.trace ==> e.UpstreamRead? || e.BodyWrite?
    decreases |steps| - i
  {
    var it := At(steps, i);
    var decision := Decide(it);
    if decision.None? then
      var rest := RunFrom(steps, i + 1);
      Run([UpstreamRead, BodyWrite(it.chunk)] + rest.trace, rest.stop)
    else
      Run([UpstreamRead] + (if decision.value == WriteFailed then [BodyWrite(it.chunk)] else []), decision.value)
  }

  function RelayLoop(steps: seq<Iteration>): Run {
    RunFrom(steps, 0)
  }

  /** `trace` starts with passes `i .. k-1`, each reading and then writing
      exactly the chunk it read. */
  ghost predicate PassesFrom(steps: seq<Iteration>, i: nat, k: nat, trace: seq<Event>)
    decreases k - i
  {
    i < k ==>
      && |trace| >= 2
      && trace[0] == UpstreamRead
      && trace[1] == BodyWrite(At(steps, i).chunk)
      && PassesFrom(steps, i + 1, k, trace[2..])
  }

  /** Iteration by iteration: each pass before the stopping pass `k` reads and
      then writes exactly the chunk it read; the stopping pass reads, and writes
      only when it is the write that fails; nothing follows. */
  ghost predicate Shaped(steps: seq<Iteration>, i: nat, k: nat, r: Run)
    requires i <= k
  {
    && Decide(At(steps, k)) == Some(r.stop)
    && |r.trace| == 2 * (k - i) + (if r.stop == WriteFailed then 2 else 1)
    && PassesFrom(steps, i, k, r.trace)
    && r.trace[2 * (k - i)] == UpstreamRead
    && (r.stop == WriteFailed ==> r.trace[2 * (k - i) + 1] == BodyWrite(At(steps, k).chunk))
  }

  lemma {:induction false} RunShape(steps: seq<Iteration>, i: nat)
    requires i <= |steps|
    ensures Shaped(steps, i, FirstStopFrom(steps, i), RunFrom(steps, i))
    decreases |steps| - i
  {
    var it := At(steps, i);
    var r, k := RunFrom(steps, i), FirstStopFrom(steps, i);
    if Continues(it) {
      var rest := RunFrom(steps, i + 1);
      assert r == Run([UpstreamRead, BodyWrite(it.chunk)] + rest.trace, rest.stop);
      assert k == FirstStopFrom(steps, i + 1);
      RunShape(steps, i + 1);
      ShapedStep(steps, i, k, rest);
    } else {
      assert k == i;
      ShapedStop(steps, i, r);
    }
  }

  /** A pass that continues, put in front of a shaped rest, gives a shaped run. */
  lemma ShapedStep(steps: seq<Iteration>, i: nat, k: nat, rest: Run)
    requires i < k
    requires Shaped(steps, i + 1, k, rest)
    ensures Shaped(steps, i, k, Run([UpstreamRead, BodyWrite(At(steps, i).chunk)] + rest.trace, rest.stop))
  {
    var t := [UpstreamRead, BodyWrite(At(steps, i).chunk)] + rest.trace;
    assert t[2..] == rest.trace;
    var m := 2 * (k - (i + 1));
    assert t[m + 2] == rest.trace[m];
    if rest.stop == WriteFailed {
      assert t[m + 3] == rest.trace[m + 1];
    }
  }

  /** The stopping pass alone is a shaped run. */
  lemma ShapedStop(steps: seq<Iteration>, i: nat, r: Run)
    requires Decide(At(steps, i)).Some? && r.stop == Decide(At(steps, i)).value
    requires r.trace == [UpstreamRead] + (if r.stop == WriteFailed then [BodyWrite(At(steps, i).chunk)] else [])
    ensures Shaped(steps, i, i, r)
  {
  }

  /** How the loop ends: with the stopping pass's read, or with its write when
      that write is what fails. */
  lemma RunEnds(steps: seq<Iteration>)
    ensures var r, k := RelayLoop(steps), StopIndex(steps);
      && Decide(At(steps, k)) == Some(r.stop)
      && |r.trace| > 0
      && r.trace[|r.trace| - 1] == (if r.stop == WriteFailed then BodyWrite(At(steps, k).chunk) else UpstreamRead)
  {
    RunShape(steps, 0);
  }

  /** Once `done` is seen (right after the read of pass `j`), nothing more is
      read or written: the trace holds at most `2 * j + 1` events (the read and
      write of each earlier pass, then the read of the stopping pass), and when
      pass `j` is the one that stops, its chunk is discarded and the trace ends
      with its read. */
  lemma CancellationHonoured(steps: seq<Iteration>, j: nat)
    requires j < |steps| && steps[j].cancelled
    ensures StopIndex(steps) <= j
    ensures |RelayLoop(steps).trace| <= 2 * j + 1
    ensures StopIndex(steps) == j ==>
      |RelayLoop(steps).trace| == 2 * j + 1 && RelayLoop(steps).stop in {EndOfStream, Cancelled}
  {
    assert !Continues(At(steps, j));
    RunShape(steps, 0);
  }

  /** One unfolding of the loop and of its stopping index. */
  lemma RunStep(steps: seq<Iteration>, i: nat)
    requires i <= |steps|
    ensures var it := At(steps, i);
      if Continues(it) then
        && i < |steps|
        && FirstStopFrom(steps, i) == FirstStopFrom(steps, i + 1)
        && RunFrom(steps, i) == Run([UpstreamRead, BodyWrite(it.chunk)] + RunFrom(steps, i + 1).trace, RunFrom(steps, i + 1).stop)
      else
        && FirstStopFrom(steps, i) == i
        && RunFrom(steps, i) == Run([UpstreamRead] + (if Decide(it) == Some(WriteFailed) then [BodyWrite(it.chunk)] else []), Decide(it).value)
  {
  }

  lemma BodyBytesOfPass(c: seq<Byte>)
    ensures BodyBytes([UpstreamRead, BodyWrite(c)]) == c
    ensures BodyBytes([UpstreamRead]) == []
  {
    var t := [UpstreamRead, BodyWrite(c)];
    assert t[1..] == [BodyWrite(c)];
    assert [BodyWrite(c)][1..] == [];
    assert BodyBytes([BodyWrite(c)]) == c + BodyBytes([]);
    assert [UpstreamRead][1..] == [];
  }

  /** The bytes handed to `w.Write` are the chunks read before the stop, in
      order and unmodified, plus the stopping chunk only when it is the write
      that fails. A chunk that arrives together with a read error is dropped. */
  lemma {:induction false} RunWrites(steps: seq<Iteration>, i: nat)
    requires i <= |steps|
    ensures ChunksBefore(steps, i) + BodyBytes(RunFrom(steps, i).trace) ==
              ChunksBefore(steps, FirstStopFrom(steps, i)) +
              (if RunFrom(steps, i).stop == WriteFailed then At(steps, FirstStopFrom(steps, i)).chunk else [])
    decreases |steps| - i
  {
    var it := At(steps, i);
    var r, k := RunFrom(steps, i), FirstStopFrom(steps, i);
    BodyBytesOfPass(it.chunk);
    if Continues(it) {
      var rest := RunFrom(steps, i + 1);
      var pass := [UpstreamRead, BodyWrite(it.chunk)];
      assert r.trace == pass + rest.trace && r.stop == rest.stop;
      assert k == FirstStopFrom(steps, i + 1);
      RunWrites(steps, i + 1);
      BodyBytesConcat(pass, rest.trace);
      var before, after := ChunksBefore(steps, i), BodyBytes(rest.trace);
      assert ChunksBefore(steps, i + 1) == before + it.chunk;
      assert BodyBytes(r.trace) == it.chunk + after;
      ConcatAssoc(before, it.chunk, after);
    } else {
      assert k == i;
      assert r.trace == [UpstreamRead] + (if r.stop == WriteFailed then [BodyWrite(it.chunk)] else []);
    }
  }

  /** The loop as written, one read per pass. `delivered` collects the bytes of
      the writes that succeeded: exactly the chunks read before the stop. */
  method CopyLoop(steps: seq<Iteration>) returns (trace: seq<Event>, delivered: seq<Byte>, stop: Stop)
    ensures trace == RelayLoop(steps).trace && stop == RelayLoop(steps).stop
    ensures stop == Decide(At(steps, StopIndex(steps))).value
    ensures delivered == ChunksBefore(steps, StopIndex(steps))
  {
    var i := 0;
    trace, delivered := [], [];
    while true
      invariant i <= |steps|
      invariant trace + RunFrom(steps, i).trace == RunFrom(steps, 0).trace
      invariant RunFrom(steps, i).stop == RunFrom(steps, 0).stop
      invariant FirstStopFrom(steps, i) == StopIndex(steps)
      invariant delivered == ChunksBefore(steps, i)
      decreases |steps| - i
    {
      var it := At(steps, i);
      RunStep(steps, i);
      if |it.chunk| == 0 || it.cancelled {
        trace := trace + [UpstreamRead];
        stop := if |it.chunk| == 0 then EndOfStream else Cancelled;
        break;
      }
      if it.readFailed {
        trace := trace + [UpstreamRead];
        stop := ReadFailed;
        break;
      }
      var pass := [UpstreamRead, BodyWrite(it.chunk)];
      if it.writeFailed {
        trace := trace + pass;
        stop := WriteFailed;
        break;
      }
      ConcatAssoc(trace, pass, RunFrom(steps, i + 1).trace);
      trace := trace + pass;
      delivered := delivered + it.chunk;
      i := i + 1;
    }
  }
}
