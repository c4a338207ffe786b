/** measure_reader: the sampling loop itself, over a buffer array that each
    read fills in place and two output streams that only grow. */
module Throughput {
  import opened Terminal
  import opened Report
  import opened Sampling
  import opened SamplingProofs

  /** The measure at the end of an outer iteration (the `if` after the
      inner loop): record the rate, print the report to the stream the
      mode selects, and reset the interval counters. */
  method MeasureStep(cfg: Config, info0: TransferInfo, stdout0: seq<Out>, stderr0: seq<Out>, tick: Tick, endLoop: bool,
                     ghost pos: nat, ghost outer: nat, ghost samples0: seq<Sample>)
    returns (info: TransferInfo, stdout: seq<Out>, stderr: seq<Out>, ghost samples: seq<Sample>)
    ensures State(info, stdout, stderr, pos, outer, samples)
            == Measure(cfg, State(info0, stdout0, stderr0, pos, outer, samples0), tick, endLoop)
  {
    info, stdout, stderr, samples := info0, stdout0, stderr0, samples0;
    if tick.wholeSecs > 0 || endLoop {
      info := info.(lastBps := tick.bps);
      info := info.(totalMeasures := info.totalMeasures + 1);
      info := info.(totalBps := info.totalBps + info.lastBps);
      assert info == Fired(info0, tick);
      if cfg.passthrough {
        stderr := PrintInfo(stderr, info);
      } else {
        stdout := PrintInfo(stdout, info);
      }
      samples := samples + [Sample(info, pos)];
      info := info.(lastBps := 0.0);
      info := info.(lastBytesTransferred := 0);
    }
  }

  /** One `reader.read(&mut buffer)` and its handling: the read fills a
      prefix of the buffer in place; its byte count is added to both
      counters; in passthrough mode that prefix is written to stdout; a
      failed read is logged to stderr. */
  method ReadOnce(cfg: Config, script: seq<ReadResult>, buffer: array<byte>,
                  info0: TransferInfo, stdout0: seq<Out>, stderr0: seq<Out>, pos0: nat,
                  ghost outer: nat, ghost samples: seq<Sample>)
    returns (info: TransferInfo, stdout: seq<Out>, stderr: seq<Out>, pos: nat, atEnd: bool)
    requires pos0 < |script|
    requires BytesRead(script[pos0]) <= buffer.Length
    modifies buffer
    ensures State(info, stdout, stderr, pos, outer, samples)
            == ReadStep(cfg, script, State(info0, stdout0, stderr0, pos0, outer, samples))
    ensures atEnd == EndOfStream(script[pos0])
  {
    info, stdout, stderr, pos := info0, stdout0, stderr0, pos0;
    atEnd := false;
    match script[pos] {
      case Ok(data) =>
        var n := |data|;
        forall k | 0 <= k < n {
          buffer[k] := data[k];
        }
        assert buffer[..n] == data;
        info := info.(lastBytesTransferred := info.lastBytesTransferred + n);
        info := info.(totalBytesTransferred := info.totalBytesTransferred + n);
        if n == 0 {
          atEnd := true;
        } else if cfg.passthrough {
          stdout := stdout + [Data(buffer[..n])];
        }
      case Err(message) =>
        stderr := stderr + [ReadErrorLine(message)];
    }
    pos := pos + 1;
  }

  /** The inner `for _ in 0..iterations` loop: up to `iterations` reads,
      stopping early at end of stream; `blocked` when the script has no
      further read to give. */
  method InnerLoop(cfg: Config, script: seq<ReadResult>, buffer: array<byte>,
                   info0: TransferInfo, stdout0: seq<Out>, stderr0: seq<Out>, pos0: nat,
                   ghost outer: nat, ghost samples: seq<Sample>)
    returns (info: TransferInfo, stdout: seq<Out>, stderr: seq<Out>, pos: nat, endLoop: bool, blocked: bool)
    requires pos0 <= |script|
    requires ReadsFit(script, buffer.Length)
    modifies buffer
    ensures Stage(State(info, stdout, stderr, pos, outer, samples), endLoop, blocked)
            == InnerStage(cfg, script, State(info0, stdout0, stderr0, pos0, outer, samples), cfg.iterations)
  {
    ghost var s0 := State(info0, stdout0, stderr0, pos0, outer, samples);
    info, stdout, stderr, pos := info0, stdout0, stderr0, pos0;
    endLoop, blocked := false, false;
    var i := 0;
    while i < cfg.iterations
      invariant 0 <= i <= cfg.iterations
      invariant pos0 <= pos <= |script|
      invariant InnerStage(cfg, script, State(info, stdout, stderr, pos, outer, samples), cfg.iterations - i)
                == InnerStage(cfg, script, s0, cfg.iterations)
    {
      if pos == |script| {
        blocked := true;
        return;
      }
      var atEnd;
      info, stdout, stderr, pos, atEnd := ReadOnce(cfg, script, buffer, info, stdout, stderr, pos, outer, samples);
      if atEnd {
        endLoop := true;
        return;
      }
      i := i + 1;
    }
  }

  /** One iteration of the outer `loop`: the inner loop, then (unless a
      read would block) the measure. `done` when the loop is left, by the
      `return` at end of stream or by blocking; otherwise the run goes on
      from the new state as it would have from the old one. */
  method OuterIteration(cfg: Config, script: seq<ReadResult>, clock: nat -> Tick, buffer: array<byte>,
                        info0: TransferInfo, stdout0: seq<Out>, stderr0: seq<Out>, pos0: nat, outer0: nat,
                        ghost samples0: seq<Sample>)
    returns (info: TransferInfo, stdout: seq<Out>, stderr: seq<Out>, pos: nat, outer: nat,
             ghost samples: seq<Sample>, done: bool, status: Status)
    requires cfg.iterations >= 1
    requires pos0 <= |script|
    requires ReadsFit(script, buffer.Length)
    modifies buffer
    ensures pos <= |script|
    ensures var s0 := State(info0, stdout0, stderr0, pos0, outer0, samples0);
            var s := State(info, stdout, stderr, pos, outer, samples);
            if done then Run(cfg, script, clock, s0) == Outcome(status, s)
            else pos0 < pos && Run(cfg, script, clock, s) == Run(cfg, script, clock, s0)
  {
    outer, samples, status := outer0, samples0, Blocked;
    var endLoop, blocked;
    info, stdout, stderr, pos, endLoop, blocked := InnerLoop(cfg, script, buffer, info0, stdout0, stderr0, pos0, outer, samples);
    if blocked {
      done := true;
      return;
    }
    info, stdout, stderr, samples := MeasureStep(cfg, info, stdout, stderr, clock(outer), endLoop, pos, outer, samples);
    outer := outer + 1;
    done := endLoop;
    if endLoop {
      status := Returned;
    }
  }

  /** Reads from `script` until a zero-byte read, `iterations` reads per
      measure, reporting at most once per outer iteration. The clock is
      consulted once per outer iteration. */
  method MeasureReader(script: seq<ReadResult>, clock: nat -> Tick, cfg: Config)
    returns (status: Status, info: TransferInfo, stdout: seq<Out>, stderr: seq<Out>, consumed: nat)
    requires cfg.iterations >= 1
    requires ReadsFit(script, cfg.bufferSize)
    // the loop does what the specification says, step for step
    ensures var o := Run(cfg, script, clock, Start);
            o.status == status && o.state.info == info && o.state.stdout == stdout
            && o.state.stderr == stderr && o.state.pos == consumed
    // and so: it returns exactly when the source ends, having read just that far
    ensures status == Returned <==> exists j :: 0 <= j < |script| && EndOfStream(script[j])
    ensures script[..consumed] == Consumed(script)
    ensures info.totalBytesTransferred == SumBytes(Consumed(script))
    // passthrough copies every byte read to stdout and sends reports to stderr
    ensures cfg.passthrough ==> stdout == DataStream(Consumed(script))
    ensures cfg.passthrough ==> DataBytes(stdout) == Payload(Consumed(script))
    ensures cfg.passthrough ==> ClearCount(stdout) == 0 && ClearCount(stderr) == 3 * info.totalMeasures
    // otherwise stdout is exactly the reports and stderr exactly the read errors
    ensures !cfg.passthrough ==> stderr == ErrorStream(Consumed(script))
    // on return a final report has covered every byte read
    ensures status == Returned ==> info.totalMeasures >= 1 && info.lastBytesTransferred == 0
  {
    var buffer := new byte[cfg.bufferSize];
    info := Default;
    stdout, stderr := [], [];
    var pos := 0;
    var outer := 0;
    ghost var samples: seq<Sample> := [];

    while true
      invariant pos <= |script|
      invariant Run(cfg, script, clock, State(info, stdout, stderr, pos, outer, samples))
                == Run(cfg, script, clock, Start)
      decreases |script| - pos
    {
      var done;
      info, stdout, stderr, pos, outer, samples, done, status :=
        OuterIteration(cfg, script, clock, buffer, info, stdout, stderr, pos, outer, samples);
      if done {
        break;
      }
    }
    consumed := pos;
    RunConsumes(cfg, script, clock);
    RunCountsBytes(cfg, script, clock);
    RunRoutes(cfg, script, clock);
    RunReports(cfg, script, clock);
  }
}
