/** The read-measure-report loop of measure_reader, as a specification on
    values: one function per step of the loop, and Run, which drives whole
    outer iterations until the source ends or the scripted reads run out.

    The reader is a finite script of read results consumed from the front;
    once it is used up, the next read would block for ever and the run
    stops with status Blocked. The clock gives, per outer iteration, the
    whole seconds elapsed since the last report and the rate that
    bytes_per_second would compute for that interval. */
module Sampling {
  import opened Terminal
  import opened Report

  /** The outcome of one `reader.read(&mut buffer)` call. */
  datatype ReadResult = Ok(data: seq<byte>) | Err(message: string)

  /** A zero-byte read: the source has reached end of data. */
  predicate EndOfStream(r: ReadResult)
  {
    r.Ok? && |r.data| == 0
  }

  function BytesRead(r: ReadResult): nat
  {
    if r.Ok? then |r.data| else 0
  }

  /** What `Read::read` promises: it never reports more bytes than the
      buffer holds. */
  predicate ReadsFit(script: seq<ReadResult>, bufferSize: nat)
  {
    forall i :: 0 <= i < |script| ==> BytesRead(script[i]) <= bufferSize
  }

  /** Buffer size, reads per measure, and the passthrough flag. */
  datatype Config = Config(bufferSize: nat, iterations: nat, passthrough: bool)

  /** One clock sample taken at the end of an outer iteration: whole
      seconds since the last report, and the interval's rate. */
  datatype Tick = Tick(wholeSecs: nat, bps: real)

  /** A report as it was printed, and how many reads had been consumed when
      it fired. */
  datatype Sample = Sample(info: TransferInfo, at: nat)

  /** Everything the loop has done so far: the counters, both output
      streams, the position in the read script, the number of outer
      iterations completed, and the log of reports emitted. */
  datatype State = State(
    info: TransferInfo,
    stdout: seq<Out>,
    stderr: seq<Out>,
    pos: nat,
    outer: nat,
    samples: seq<Sample>)

  const Start: State := State(Default, [], [], 0, 0, [])

  /** The line written to stderr for a failed read. */
  function ReadErrorLine(message: string): Out
  {
    Text("Error while reading into buffer: " + message + "\n")
  }

  /** One read of the inner stage: a successful read adds its byte count
      to both counters and, in passthrough mode, copies the non-empty data
      to stdout; a failed read only logs to stderr. */
  function ReadStep(cfg: Config, script: seq<ReadResult>, s: State): State
    requires s.pos < |script|
  {
    match script[s.pos]
    case Ok(data) =>
      var info := s.info.(lastBytesTransferred := s.info.lastBytesTransferred + |data|,
                          totalBytesTransferred := s.info.totalBytesTransferred + |data|);
      var stdout := if |data| > 0 && cfg.passthrough then s.stdout + [Data(data)] else s.stdout;
      s.(info := info, stdout := stdout, pos := s.pos + 1)
    case Err(message) =>
      s.(stderr := s.stderr + [ReadErrorLine(message)], pos := s.pos + 1)
  }

  /** Where an inner stage stopped: after its iterations, at end of stream,
      or blocked on a read the script does not supply. */
  datatype Stage = Stage(state: State, endLoop: bool, blocked: bool)

  /** The inner `for` loop with `remaining` iterations left. */
  function InnerStage(cfg: Config, script: seq<ReadResult>, s: State, remaining: nat): (r: Stage)
    ensures s.pos <= r.state.pos
    ensures s.pos <= |script| ==> r.state.pos <= |script|
    ensures remaining >= 1 && !r.blocked ==> s.pos < r.state.pos
    // at most `remaining` reads, and exactly that many unless the stream
    // ends or a read blocks
    ensures s.pos <= |script| ==> r.state.pos <= s.pos + remaining
    ensures s.pos <= |script| && !r.endLoop && !r.blocked ==> r.state.pos == s.pos + remaining
    ensures r.endLoop ==> !r.blocked && s.pos < r.state.pos <= |script| && EndOfStream(script[r.state.pos - 1])
    ensures r.state.outer == s.outer && r.state.samples == s.samples
    decreases remaining
  {
    if remaining == 0 then Stage(s, false, false)
    else if |script| <= s.pos then Stage(s, false, true)
    else
      var next := ReadStep(cfg, script, s);
      if EndOfStream(script[s.pos]) then Stage(next, true, false)
      else InnerStage(cfg, script, next, remaining - 1)
  }

  /** The counters as print_info sees them when a report fires. */
  function Fired(info: TransferInfo, tick: Tick): TransferInfo
  {
    info.(lastBps := tick.bps,
          totalMeasures := info.totalMeasures + 1,
          totalBps := info.totalBps + tick.bps)
  }

  /** The measure at the end of an outer iteration: when a whole second has
      passed or the stream ended, record the rate, print the report (to
      stderr in passthrough mode, to stdout otherwise) and reset the
      interval counters; otherwise nothing changes. */
  function Measure(cfg: Config, s: State, tick: Tick, endLoop: bool): State
  {
    if tick.wholeSecs > 0 || endLoop then
      var printed := Fired(s.info, tick);
      var report := ReportEvents(printed);
      var routed := if cfg.passthrough then s.(stderr := s.stderr + report)
                    else s.(stdout := s.stdout + report);
      routed.(info := printed.(lastBps := 0.0, lastBytesTransferred := 0),
              samples := s.samples + [Sample(printed, s.pos)])
    else s
  }

  datatype Status = Returned | Blocked

  datatype Outcome = Outcome(status: Status, state: State)

  /** The outer `loop`: an inner stage, then a measure, until an inner
      stage sees end of stream (the function returns) or blocks. */
  function Run(cfg: Config, script: seq<ReadResult>, clock: nat -> Tick, s: State): (o: Outcome)
    requires cfg.iterations >= 1
    requires s.pos <= |script|
    ensures s.pos <= o.state.pos <= |script|
    ensures o.status == Returned ==> s.pos < o.state.pos
    decreases |script| - s.pos
  {
    var stage := InnerStage(cfg, script, s, cfg.iterations);
    if stage.blocked then Outcome(Blocked, stage.state)
    else
      var measured := Measure(cfg, stage.state, clock(s.outer), stage.endLoop).(outer := s.outer + 1);
      if stage.endLoop then Outcome(Returned, measured)
      else Run(cfg, script, clock, measured)
  }
}
