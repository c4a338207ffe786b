/** What the sampling loop guarantees, proved about the specification in
    module Sampling: byte accounting, when the loop returns, where data and
    reports go, and how reports relate to the counters. */
module SamplingProofs {
  import opened Units
  import opened Terminal
  import opened Report
  import opened Sampling

  // ---------------------------------------------------------------------
  // Reference definitions over a read script, each written from the end.
  // ---------------------------------------------------------------------

  /** Total bytes of the successful reads in `rs`. */
  function SumBytes(rs: seq<ReadResult>): nat
  {
    if rs == [] then 0 else SumBytes(rs[..|rs| - 1]) + BytesRead(rs[|rs| - 1])
  }

  /** The bytes of every successful read, in read order. */
  function Payload(rs: seq<ReadResult>): seq<byte>
  {
    if rs == [] then [] else Payload(rs[..|rs| - 1]) + (var r := rs[|rs| - 1]; if r.Ok? then r.data else [])
  }

  /** The passthrough write a read causes: its data, unless it is empty or failed. */
  function DataWrite(r: ReadResult): seq<Out>
  {
    if r.Ok? && |r.data| > 0 then [Data(r.data)] else []
  }

  /** One data write per non-empty successful read, in read order. */
  function DataStream(rs: seq<ReadResult>): seq<Out>
  {
    if rs == [] then [] else DataStream(rs[..|rs| - 1]) + DataWrite(rs[|rs| - 1])
  }

  function ErrorWrite(r: ReadResult): seq<Out>
  {
    if r.Err? then [ReadErrorLine(r.message)] else []
  }

  /** One error line per failed read, in read order. */
  function ErrorStream(rs: seq<ReadResult>): seq<Out>
  {
    if rs == [] then [] else ErrorStream(rs[..|rs| - 1]) + ErrorWrite(rs[|rs| - 1])
  }

  /** The bytes carried by the data writes of a stream. */
  function DataBytes(w: seq<Out>): seq<byte>
  {
    if w == [] then [] else DataBytes(w[..|w| - 1]) + (var o := w[|w| - 1]; if o.Data? then o.bytes else [])
  }

  /** Index of the first zero-byte read, or |rs| when there is none. */
  function FirstEnd(rs: seq<ReadResult>): (k: nat)
    ensures k <= |rs|
    ensures forall j :: 0 <= j < k ==> !EndOfStream(rs[j])
    ensures k < |rs| ==> EndOfStream(rs[k])
  {
    if rs == [] then 0 else if EndOfStream(rs[0]) then 0 else 1 + FirstEnd(rs[1..])
  }

  /** The reads a run performs: all of them up to and including the first
      zero-byte read, or the whole script when there is none. */
  function Consumed(rs: seq<ReadResult>): seq<ReadResult>
  {
    if FirstEnd(rs) < |rs| then rs[..FirstEnd(rs) + 1] else rs
  }

  // ---------------------------------------------------------------------
  // Reference definitions over the log of reports.
  // ---------------------------------------------------------------------

  /** How many reads had been consumed when the last report fired. */
  function LastAt(ss: seq<Sample>): nat
  {
    if ss == [] then 0 else ss[|ss| - 1].at
  }

  function SumRates(ss: seq<Sample>): real
  {
    if ss == [] then 0.0 else SumRates(ss[..|ss| - 1]) + ss[|ss| - 1].info.lastBps
  }

  /** Bytes of all completed intervals. */
  function SumIntervals(ss: seq<Sample>): nat
  {
    if ss == [] then 0 else SumIntervals(ss[..|ss| - 1]) + ss[|ss| - 1].info.lastBytesTransferred
  }

  predicate Numbered(ss: seq<Sample>)
  {
    forall i :: 0 <= i < |ss| ==> ss[i].info.totalMeasures == i + 1
  }

  /** Every report printed so far, in order. */
  function ReportStream(ss: seq<Sample>): seq<Out>
    requires Numbered(ss)
  {
    if ss == [] then [] else ReportStream(ss[..|ss| - 1]) + ReportEvents(ss[|ss| - 1].info)
  }

  // ---------------------------------------------------------------------
  // The invariant of the loop.
  // ---------------------------------------------------------------------

  /** Reports fire in read order, no later than `pos`, and each carries
      the bytes read before it, the bytes read since the report before it,
      and the sum of all rates reported up to and including it. */
  ghost predicate Intervals(script: seq<ReadResult>, ss: seq<Sample>, pos: nat)
    requires pos <= |script|
    decreases |ss|
  {
    if ss == [] then true
    else
      var init, x := ss[..|ss| - 1], ss[|ss| - 1];
      LastAt(init) <= x.at <= pos
      && x.info.totalBytesTransferred == SumBytes(script[..x.at])
      && x.info.lastBytesTransferred == SumBytes(script[LastAt(init)..x.at])
      && x.info.totalBps == SumRates(init) + x.info.lastBps
      && Intervals(script, init, x.at)
  }

  /** The counters agree with the reads performed and the reports emitted. */
  ghost predicate Accounted(script: seq<ReadResult>, s: State)
  {
    s.pos <= |script|
    && Numbered(s.samples)
    && Intervals(script, s.samples, s.pos)
    && LastAt(s.samples) <= s.pos
    && s.info.totalBytesTransferred == SumBytes(script[..s.pos])
    && s.info.lastBytesTransferred == SumBytes(script[LastAt(s.samples)..s.pos])
    && SumIntervals(s.samples) + s.info.lastBytesTransferred == s.info.totalBytesTransferred
    && s.info.totalMeasures == |s.samples|
    && s.info.totalBps == SumRates(s.samples)
    && s.info.lastBps == 0.0
  }

  /** Data and reports went where the mode sends them. */
  ghost predicate Routed(cfg: Config, script: seq<ReadResult>, s: State)
    requires Accounted(script, s)
  {
    if cfg.passthrough then
      s.stdout == DataStream(script[..s.pos]) && ClearCount(s.stderr) == 3 * |s.samples|
    else
      s.stdout == ReportStream(s.samples) && s.stderr == ErrorStream(script[..s.pos])
  }

  ghost predicate Inv(cfg: Config, script: seq<ReadResult>, s: State)
  {
    Accounted(script, s) && Routed(cfg, script, s)
  }

  lemma StartInv(cfg: Config, script: seq<ReadResult>)
    ensures Inv(cfg, script, Start)
  {
    assert script[..0] == [];
    assert script[0..0] == [];
  }

  // ---------------------------------------------------------------------
  // Appending one read to a prefix.
  // ---------------------------------------------------------------------

  lemma SliceSnoc(script: seq<ReadResult>, a: nat, p: nat)
    requires a <= p < |script|
    ensures script[a..p + 1][..p - a] == script[a..p]
    ensures script[a..p + 1][p - a] == script[p]
    ensures script[a..p + 1] != []
  {
  }

  lemma SumBytesSnoc(script: seq<ReadResult>, a: nat, p: nat)
    requires a <= p < |script|
    ensures SumBytes(script[a..p + 1]) == SumBytes(script[a..p]) + BytesRead(script[p])
  {
    SliceSnoc(script, a, p);
  }

  lemma StreamsSnoc(script: seq<ReadResult>, p: nat)
    requires p < |script|
    ensures DataStream(script[..p + 1]) == DataStream(script[..p]) + DataWrite(script[p])
    ensures ErrorStream(script[..p + 1]) == ErrorStream(script[..p]) + ErrorWrite(script[p])
  {
    assert script[..p + 1][..p] == script[..p];
  }

  lemma ErrorLineNotClear(message: string)
    ensures ReadErrorLine(message) != ClearLine
  {
    assert ReadErrorLine(message).s[0] == 'E';
  }

  // ---------------------------------------------------------------------
  // Each step keeps the invariant. Each step's effect on the fields is
  // stated once; the invariant is then carried over to any state with
  // those fields.
  // ---------------------------------------------------------------------

  lemma ReadEffect(cfg: Config, script: seq<ReadResult>, s: State)
    requires s.pos < |script|
    ensures var t := ReadStep(cfg, script, s);
            t.pos == s.pos + 1 && t.samples == s.samples
            && t.info.totalMeasures == s.info.totalMeasures && t.info.totalBps == s.info.totalBps
            && t.info.lastBps == s.info.lastBps
            && t.info.totalBytesTransferred == s.info.totalBytesTransferred + BytesRead(script[s.pos])
            && t.info.lastBytesTransferred == s.info.lastBytesTransferred + BytesRead(script[s.pos])
            && t.stdout == s.stdout + (if cfg.passthrough then DataWrite(script[s.pos]) else [])
            && t.stderr == s.stderr + ErrorWrite(script[s.pos])
  {
  }

  lemma ReadAccounted(script: seq<ReadResult>, s: State, t: State)
    requires Accounted(script, s)
    requires s.pos < |script|
    requires t.pos == s.pos + 1 && t.samples == s.samples
             && t.info.totalMeasures == s.info.totalMeasures && t.info.totalBps == s.info.totalBps
             && t.info.lastBps == s.info.lastBps
             && t.info.totalBytesTransferred == s.info.totalBytesTransferred + BytesRead(script[s.pos])
             && t.info.lastBytesTransferred == s.info.lastBytesTransferred + BytesRead(script[s.pos])
    ensures Accounted(script, t)
  {
    var p := s.pos;
    var c := LastAt(s.samples);
    SumBytesSnoc(script, 0, p);
    SumBytesSnoc(script, c, p);
    assert script[0..p] == script[..p] && script[0..p + 1] == script[..p + 1];
  }

  lemma ErrorWriteNoClear(r: ReadResult)
    ensures ClearCount(ErrorWrite(r)) == 0
  {
    if r.Err? {
      ErrorLineNotClear(r.message);
      ClearCountSingle(ReadErrorLine(r.message));
    }
  }

  /** One read extends the data stream and the error stream by its own
      writes, and adds no clear-line to stderr. */
  lemma ReadStreams(script: seq<ReadResult>, p: nat, stderr: seq<Out>)
    requires p < |script|
    ensures DataStream(script[..p + 1]) == DataStream(script[..p]) + DataWrite(script[p])
    ensures ErrorStream(script[..p + 1]) == ErrorStream(script[..p]) + ErrorWrite(script[p])
    ensures ClearCount(stderr + ErrorWrite(script[p])) == ClearCount(stderr)
  {
    StreamsSnoc(script, p);
    ClearCountAppend(stderr, ErrorWrite(script[p]));
    ErrorWriteNoClear(script[p]);
  }

  lemma ReadRouted(cfg: Config, script: seq<ReadResult>, s: State, t: State)
    requires Inv(cfg, script, s) && Accounted(script, t)
    requires s.pos < |script|
    requires t.pos == s.pos + 1 && t.samples == s.samples
             && t.stdout == s.stdout + (if cfg.passthrough then DataWrite(script[s.pos]) else [])
             && t.stderr == s.stderr + ErrorWrite(script[s.pos])
    ensures Routed(cfg, script, t)
  {
    ReadStreams(script, s.pos, s.stderr);
  }

  lemma ReadStepKeeps(cfg: Config, script: seq<ReadResult>, s: State)
    requires Inv(cfg, script, s)
    requires s.pos < |script|
    ensures Inv(cfg, script, ReadStep(cfg, script, s))
  {
    var t := ReadStep(cfg, script, s);
    ReadEffect(cfg, script, s);
    ReadAccounted(script, s, t);
    ReadRouted(cfg, script, s, t);
  }

  lemma SumsSnoc(ss: seq<Sample>, x: Sample)
    ensures SumRates(ss + [x]) == SumRates(ss) + x.info.lastBps
    ensures SumIntervals(ss + [x]) == SumIntervals(ss) + x.info.lastBytesTransferred
  {
    assert (ss + [x])[..|ss|] == ss;
  }

  /** What a firing measure does to the fields; a measure that does not
      fire changes nothing. */
  lemma MeasureEffect(cfg: Config, s: State, tick: Tick, endLoop: bool)
    ensures var t := Measure(cfg, s, tick, endLoop);
            var x := Sample(Fired(s.info, tick), s.pos);
            if tick.wholeSecs > 0 || endLoop then
              t.pos == s.pos && t.samples == s.samples + [x]
              && x.info.totalMeasures == s.info.totalMeasures + 1
              && x.info.totalBps == s.info.totalBps + x.info.lastBps
              && x.info.lastBytesTransferred == s.info.lastBytesTransferred
              && x.info.totalBytesTransferred == s.info.totalBytesTransferred
              && t.info == x.info.(lastBps := 0.0, lastBytesTransferred := 0)
              && (cfg.passthrough ==> t.stdout == s.stdout && t.stderr == s.stderr + ReportEvents(x.info))
              && (!cfg.passthrough ==> t.stderr == s.stderr && t.stdout == s.stdout + ReportEvents(x.info))
            else t == s
  {
  }

  lemma MeasureAccounted(script: seq<ReadResult>, s: State, x: Sample, t: State)
    requires Accounted(script, s)
    requires t.pos == s.pos && t.samples == s.samples + [x] && x.at == s.pos
    requires x.info.totalMeasures == s.info.totalMeasures + 1
             && x.info.totalBps == s.info.totalBps + x.info.lastBps
             && x.info.lastBytesTransferred == s.info.lastBytesTransferred
             && x.info.totalBytesTransferred == s.info.totalBytesTransferred
             && t.info == x.info.(lastBps := 0.0, lastBytesTransferred := 0)
    ensures Accounted(script, t)
  {
    var ss := s.samples;
    SumsSnoc(ss, x);
    assert (ss + [x])[..|ss|] == ss;
    assert forall i :: 0 <= i < |ss| ==> (ss + [x])[i] == ss[i];
    assert script[s.pos..s.pos] == [];
  }

  lemma MeasureRouted(cfg: Config, script: seq<ReadResult>, s: State, x: Sample, t: State)
    requires Inv(cfg, script, s) && Accounted(script, t)
    requires t.pos == s.pos && t.samples == s.samples + [x]
    requires x.info.totalMeasures >= 1
    requires cfg.passthrough ==> t.stdout == s.stdout && t.stderr == s.stderr + ReportEvents(x.info)
    requires !cfg.passthrough ==> t.stderr == s.stderr && t.stdout == s.stdout + ReportEvents(x.info)
    ensures Routed(cfg, script, t)
  {
    if cfg.passthrough {
      ReportLayout(x.info);
      ClearCountAppend(s.stderr, ReportEvents(x.info));
    } else {
      assert (s.samples + [x])[..|s.samples|] == s.samples;
    }
  }

  lemma MeasureKeeps(cfg: Config, script: seq<ReadResult>, s: State, tick: Tick, endLoop: bool)
    requires Inv(cfg, script, s)
    ensures Inv(cfg, script, Measure(cfg, s, tick, endLoop))
  {
    MeasureEffect(cfg, s, tick, endLoop);
    if tick.wholeSecs > 0 || endLoop {
      var t := Measure(cfg, s, tick, endLoop);
      var x := Sample(Fired(s.info, tick), s.pos);
      MeasureAccounted(script, s, x, t);
      MeasureRouted(cfg, script, s, x, t);
    }
  }

  /** Anything every read keeps, an inner stage keeps. */
  lemma {:induction false} StageKeeps(cfg: Config, script: seq<ReadResult>, P: State -> bool, s: State, remaining: nat)
    requires forall t :: P(t) && t.pos < |script| ==> P(ReadStep(cfg, script, t))
    requires P(s)
    ensures P(InnerStage(cfg, script, s, remaining).state)
    decreases remaining
  {
    if remaining > 0 && s.pos < |script| && !EndOfStream(script[s.pos]) {
      StageKeeps(cfg, script, P, ReadStep(cfg, script, s), remaining - 1);
    }
  }

  /** Anything every inner stage and every measure keeps, a run keeps. */
  lemma {:induction false} RunKeeps(cfg: Config, script: seq<ReadResult>, clock: nat -> Tick, P: State -> bool, s: State)
    requires cfg.iterations >= 1 && s.pos <= |script|
    requires forall t {:trigger InnerStage(cfg, script, t, cfg.iterations)} ::
               P(t) && t.pos <= |script| ==> P(InnerStage(cfg, script, t, cfg.iterations).state)
    requires forall t, tick, endLoop, k {:trigger P(Measure(cfg, t, tick, endLoop).(outer := k))} ::
               P(t) ==> P(Measure(cfg, t, tick, endLoop).(outer := k))
    requires P(s)
    ensures P(Run(cfg, script, clock, s).state)
    decreases |script| - s.pos
  {
    var stage := InnerStage(cfg, script, s, cfg.iterations);
    if !stage.blocked && !stage.endLoop {
      RunKeeps(cfg, script, clock, P, Measure(cfg, stage.state, clock(s.outer), stage.endLoop).(outer := s.outer + 1));
    }
  }

  lemma StageInv(cfg: Config, script: seq<ReadResult>, s: State, remaining: nat)
    requires Inv(cfg, script, s)
    ensures Inv(cfg, script, InnerStage(cfg, script, s, remaining).state)
  {
    forall t | Inv(cfg, script, t) && t.pos < |script|
      ensures Inv(cfg, script, ReadStep(cfg, script, t))
    {
      ReadStepKeeps(cfg, script, t);
    }
    StageKeeps(cfg, script, t => Inv(cfg, script, t), s, remaining);
  }

  /** The invariant does not depend on the count of outer iterations. */
  lemma OuterIrrelevant(cfg: Config, script: seq<ReadResult>, s: State, k: nat)
    requires Inv(cfg, script, s)
    ensures Inv(cfg, script, s.(outer := k))
  {
  }

  lemma RunInv(cfg: Config, script: seq<ReadResult>, clock: nat -> Tick)
    requires cfg.iterations >= 1
    ensures Inv(cfg, script, Run(cfg, script, clock, Start).state)
  {
    StartInv(cfg, script);
    forall t | Inv(cfg, script, t) && t.pos <= |script|
      ensures Inv(cfg, script, InnerStage(cfg, script, t, cfg.iterations).state)
    {
      StageInv(cfg, script, t, cfg.iterations);
    }
    forall t, tick, endLoop, k | Inv(cfg, script, t)
      ensures Inv(cfg, script, Measure(cfg, t, tick, endLoop).(outer := k))
    {
      MeasureKeeps(cfg, script, t, tick, endLoop);
      OuterIrrelevant(cfg, script, Measure(cfg, t, tick, endLoop), k);
    }
    RunKeeps(cfg, script, clock, t => Inv(cfg, script, t), Start);
  }

  /** An inner stage started before the first zero-byte read stops just
      after it, or blocks at the end of the script, or stops before it. */
  lemma {:induction false} StageStops(cfg: Config, script: seq<ReadResult>, s: State, remaining: nat)
    requires s.pos <= FirstEnd(script)
    ensures var r := InnerStage(cfg, script, s, remaining);
            !(r.endLoop && r.blocked)
            && (r.endLoop ==> r.state.pos == FirstEnd(script) + 1)
            && (!r.endLoop ==> r.state.pos <= FirstEnd(script))
            && (r.blocked ==> r.state.pos == |script|)
    decreases remaining
  {
    if remaining > 0 && s.pos < |script| {
      var next := ReadStep(cfg, script, s);
      assert next.pos == s.pos + 1;
      if !EndOfStream(script[s.pos]) {
        StageStops(cfg, script, next, remaining - 1);
      }
    }
  }

  /** A run started before the first zero-byte read returns just after it,
      with a report fired at that point, or blocks at the end of the
      script. */
  lemma {:induction false} RunStops(cfg: Config, script: seq<ReadResult>, clock: nat -> Tick, s: State)
    requires cfg.iterations >= 1
    requires s.pos <= FirstEnd(script)
    ensures var o := Run(cfg, script, clock, s);
            (o.status == Returned ==> o.state.pos == FirstEnd(script) + 1
                                      && |o.state.samples| >= 1 && LastAt(o.state.samples) == o.state.pos)
            && (o.status == Blocked ==> o.state.pos == |script| == FirstEnd(script))
    decreases |script| - s.pos
  {
    var stage := InnerStage(cfg, script, s, cfg.iterations);
    StageStops(cfg, script, s, cfg.iterations);
    RunUnfold(cfg, script, clock, s);
    if !stage.blocked {
      var measured := Measure(cfg, stage.state, clock(s.outer), stage.endLoop).(outer := s.outer + 1);
      MeasureLog(cfg, stage.state, clock(s.outer), stage.endLoop);
      if !stage.endLoop {
        RunStops(cfg, script, clock, measured);
      }
    }
  }

  /** One outer iteration of Run: an inner stage, then, unless it
      blocked, a measure, then another iteration unless the stream ended. */
  lemma RunUnfold(cfg: Config, script: seq<ReadResult>, clock: nat -> Tick, s: State)
    requires cfg.iterations >= 1 && s.pos <= |script|
    ensures var stage := InnerStage(cfg, script, s, cfg.iterations);
            var measured := Measure(cfg, stage.state, clock(s.outer), stage.endLoop).(outer := s.outer + 1);
            (stage.blocked ==> Run(cfg, script, clock, s) == Outcome(Blocked, stage.state))
            && (!stage.blocked && stage.endLoop ==> Run(cfg, script, clock, s) == Outcome(Returned, measured))
            && (!stage.blocked && !stage.endLoop ==> Run(cfg, script, clock, s) == Run(cfg, script, clock, measured))
  {
    var stage := InnerStage(cfg, script, s, cfg.iterations);
    if !stage.blocked {
      var measured := Measure(cfg, stage.state, clock(s.outer), stage.endLoop).(outer := s.outer + 1);
      if stage.endLoop {
        assert Run(cfg, script, clock, s) == Outcome(Returned, measured);
      } else {
        assert Run(cfg, script, clock, s) == Run(cfg, script, clock, measured);
      }
    } else {
      assert Run(cfg, script, clock, s) == Outcome(Blocked, stage.state);
    }
  }

  /** A measure leaves the position alone and, when the stream has ended,
      logs a report at the current position. */
  lemma MeasureLog(cfg: Config, s: State, tick: Tick, endLoop: bool)
    ensures Measure(cfg, s, tick, endLoop).pos == s.pos
    ensures endLoop ==> |Measure(cfg, s, tick, endLoop).samples| >= 1 && LastAt(Measure(cfg, s, tick, endLoop).samples) == s.pos
  {
  }

  // ---------------------------------------------------------------------
  // What a run from the start guarantees.
  // ---------------------------------------------------------------------

  /** The loop returns exactly when the script holds a zero-byte read, and
      then it has performed every read up to and including the first one;
      without one it performs every read and blocks on the next. */
  lemma RunConsumes(cfg: Config, script: seq<ReadResult>, clock: nat -> Tick)
    requires cfg.iterations >= 1
    ensures var o := Run(cfg, script, clock, Start);
            (o.status == Returned <==> exists j :: 0 <= j < |script| && EndOfStream(script[j]))
            && script[..o.state.pos] == Consumed(script)
  {
    RunStops(cfg, script, clock, Start);
    var o := Run(cfg, script, clock, Start);
    var k := FirstEnd(script);
    if o.status == Returned {
      assert EndOfStream(script[k]);
    } else {
      assert k == |script|;
      assert script[..|script|] == script;
    }
  }

  /** total_bytes_transferred is the sum of the byte counts of all reads
      performed, and the interval counts plus the current one add up to it. */
  lemma RunCountsBytes(cfg: Config, script: seq<ReadResult>, clock: nat -> Tick)
    requires cfg.iterations >= 1
    ensures var o := Run(cfg, script, clock, Start);
            o.state.info.totalBytesTransferred == SumBytes(Consumed(script))
            && SumIntervals(o.state.samples) + o.state.info.lastBytesTransferred == o.state.info.totalBytesTransferred
  {
    RunInv(cfg, script, clock);
    RunStops(cfg, script, clock, Start);
    RunConsumes(cfg, script, clock);
  }

  /** total_measures counts the reports, total_bps is the sum of the
      reported rates, so the average printed is their mean; reports are
      numbered 1, 2, ... in order; the current interval counts the bytes
      read since the last report; and when the loop returns, a last report
      has fired after the final read. */
  lemma RunReports(cfg: Config, script: seq<ReadResult>, clock: nat -> Tick)
    requires cfg.iterations >= 1
    ensures var o := Run(cfg, script, clock, Start);
            var ss := o.state.samples;
            o.state.info.totalMeasures == |ss|
            && o.state.info.totalBps == SumRates(ss)
            && (|ss| >= 1 ==> AverageBps(o.state.info) == SumRates(ss) / |ss| as real)
            && o.state.info.lastBps == 0.0
            && (forall i :: 0 <= i < |ss| ==> ss[i].info.totalMeasures == i + 1)
            && LastAt(ss) <= o.state.pos
            && o.state.info.lastBytesTransferred == SumBytes(script[LastAt(ss)..o.state.pos])
            && (o.status == Returned ==>
                  (|ss| >= 1 && ss[|ss| - 1].at == o.state.pos && o.state.info.lastBytesTransferred == 0))
  {
    RunInv(cfg, script, clock);
    RunStops(cfg, script, clock, Start);
    var o := Run(cfg, script, clock, Start);
    assert script[o.state.pos..o.state.pos] == [];
  }

  /** Report `i` shows, as its total, every byte read before it fired,
      and, as its interval count, the bytes read since report i - 1 (or
      the start); the average it prints is the mean of the rates of
      reports 0 to i. */
  lemma RunReportInterval(cfg: Config, script: seq<ReadResult>, clock: nat -> Tick, i: nat)
    requires cfg.iterations >= 1
    requires i < |Run(cfg, script, clock, Start).state.samples|
    ensures var o := Run(cfg, script, clock, Start);
            var ss := o.state.samples;
            var from := if i == 0 then 0 else ss[i - 1].at;
            from <= ss[i].at <= o.state.pos
            && ss[i].info.totalBytesTransferred == SumBytes(script[..ss[i].at])
            && ss[i].info.lastBytesTransferred == SumBytes(script[from..ss[i].at])
            && ss[i].info.totalMeasures == i + 1
            && ss[i].info.totalBps == SumRates(ss[..i + 1])
            && AverageBps(ss[i].info) == SumRates(ss[..i + 1]) / (i + 1) as real
  {
    RunInv(cfg, script, clock);
    var o := Run(cfg, script, clock, Start);
    IntervalAt(script, o.state.samples, o.state.pos, i);
  }

  lemma {:induction false} IntervalAt(script: seq<ReadResult>, ss: seq<Sample>, pos: nat, i: nat)
    requires pos <= |script|
    requires Intervals(script, ss, pos)
    requires i < |ss|
    ensures var from := if i == 0 then 0 else ss[i - 1].at;
            from <= ss[i].at <= pos
            && ss[i].info.totalBytesTransferred == SumBytes(script[..ss[i].at])
            && ss[i].info.lastBytesTransferred == SumBytes(script[from..ss[i].at])
            && ss[i].info.totalBps == SumRates(ss[..i + 1])
    decreases |ss|
  {
    var n := |ss| - 1;
    var init := ss[..n];
    if i < n {
      IntervalAt(script, init, ss[n].at, i);
      assert init[i] == ss[i];
      assert init[..i + 1] == ss[..i + 1];
      if i > 0 {
        assert init[i - 1] == ss[i - 1];
      }
    } else {
      assert ss[..i + 1] == ss;
      if n > 0 {
        assert init[n - 1] == ss[n - 1];
      }
    }
  }

  /** In passthrough mode stdout carries exactly the data read, in order,
      and every report goes to stderr; otherwise stdout carries exactly the
      reports and stderr exactly the read errors. */
  lemma RunRoutes(cfg: Config, script: seq<ReadResult>, clock: nat -> Tick)
    requires cfg.iterations >= 1
    ensures var o := Run(cfg, script, clock, Start);
            Numbered(o.state.samples)
            && (cfg.passthrough ==>
                  o.state.stdout == DataStream(Consumed(script))
                  && DataBytes(o.state.stdout) == Payload(Consumed(script))
                  && ClearCount(o.state.stdout) == 0
                  && ClearCount(o.state.stderr) == 3 * o.state.info.totalMeasures)
            && (!cfg.passthrough ==>
                  o.state.stdout == ReportStream(o.state.samples)
                  && o.state.stderr == ErrorStream(Consumed(script)))
  {
    RunInv(cfg, script, clock);
    RunStops(cfg, script, clock, Start);
    RunConsumes(cfg, script, clock);
    var o := Run(cfg, script, clock, Start);
    if cfg.passthrough {
      DataStreamBytes(Consumed(script));
      DataStreamNoClear(Consumed(script));
    }
  }

  /** Every report fires after a whole number of full inner stages, read
      errors included, except the one at end of stream. */
  ghost predicate OnCadence(cfg: Config, ss: seq<Sample>, last: bool)
    requires cfg.iterations >= 1
  {
    forall i :: 0 <= i < |ss| ==> MultipleOf(ss[i].at, cfg.iterations) || (last && i == |ss| - 1)
  }

  /** `a` is a whole number of steps of `m`. */
  predicate MultipleOf(a: nat, m: nat)
    requires m >= 1
    decreases a
  {
    a == 0 || (a >= m && MultipleOf(a - m, m))
  }

  /** A measure keeps the reports on cadence when it fires at a multiple
      of `iterations` reads; one at end of stream may fire anywhere. */
  lemma MeasureCadence(cfg: Config, s: State, tick: Tick, endLoop: bool)
    requires cfg.iterations >= 1
    requires OnCadence(cfg, s.samples, false)
    requires endLoop || MultipleOf(s.pos, cfg.iterations)
    ensures OnCadence(cfg, Measure(cfg, s, tick, endLoop).samples, endLoop)
  {
    var ss := Measure(cfg, s, tick, endLoop).samples;
    MeasureEffect(cfg, s, tick, endLoop);
    assert forall i :: 0 <= i < |s.samples| ==> ss[i] == s.samples[i];
  }

  lemma {:induction false} RunCadenceFrom(cfg: Config, script: seq<ReadResult>, clock: nat -> Tick, s: State)
    requires cfg.iterations >= 1 && s.pos <= |script|
    requires MultipleOf(s.pos, cfg.iterations) && OnCadence(cfg, s.samples, false)
    ensures var o := Run(cfg, script, clock, s);
            OnCadence(cfg, o.state.samples, o.status == Returned)
    decreases |script| - s.pos
  {
    var stage := InnerStage(cfg, script, s, cfg.iterations);
    RunUnfold(cfg, script, clock, s);
    if !stage.blocked {
      if !stage.endLoop {
        assert MultipleOf(stage.state.pos, cfg.iterations);
      }
      MeasureCadence(cfg, stage.state, clock(s.outer), stage.endLoop);
      MeasureLog(cfg, stage.state, clock(s.outer), stage.endLoop);
      if !stage.endLoop {
        RunCadenceFrom(cfg, script, clock, Measure(cfg, stage.state, clock(s.outer), stage.endLoop).(outer := s.outer + 1));
      }
    }
  }

  /** The `for _ in 0..iterations` loop makes exactly `iterations` reads
      per measure, a failed read counting as one: every report fires at a
      multiple of `iterations` reads, except the final one at end of
      stream. */
  lemma RunCadence(cfg: Config, script: seq<ReadResult>, clock: nat -> Tick)
    requires cfg.iterations >= 1
    ensures var o := Run(cfg, script, clock, Start);
            var ss := o.state.samples;
            forall i :: 0 <= i < |ss| ==> MultipleOf(ss[i].at, cfg.iterations) || (o.status == Returned && i == |ss| - 1)
  {
    RunCadenceFrom(cfg, script, clock, Start);
  }

  /** A measure adds one report exactly when it fires. */
  lemma MeasureCount(cfg: Config, s: State, tick: Tick, endLoop: bool)
    ensures |Measure(cfg, s, tick, endLoop).samples| == |s.samples| + (if tick.wholeSecs > 0 || endLoop then 1 else 0)
  {
  }

  lemma {:induction false} RunQuietFrom(cfg: Config, script: seq<ReadResult>, clock: nat -> Tick, s: State)
    requires cfg.iterations >= 1 && s.pos <= |script|
    requires forall k :: clock(k).wholeSecs == 0
    ensures var o := Run(cfg, script, clock, s);
            |o.state.samples| == |s.samples| + (if o.status == Returned then 1 else 0)
    decreases |script| - s.pos
  {
    var stage := InnerStage(cfg, script, s, cfg.iterations);
    RunUnfold(cfg, script, clock, s);
    if !stage.blocked {
      var measured := Measure(cfg, stage.state, clock(s.outer), stage.endLoop).(outer := s.outer + 1);
      MeasureCount(cfg, stage.state, clock(s.outer), stage.endLoop);
      if !stage.endLoop {
        RunQuietFrom(cfg, script, clock, measured);
      }
    }
  }

  /** When no whole second ever passes, the only report is the final one
      at end of stream. */
  lemma QuietClockOneReport(cfg: Config, script: seq<ReadResult>, clock: nat -> Tick)
    requires cfg.iterations >= 1
    requires forall k :: clock(k).wholeSecs == 0
    ensures var o := Run(cfg, script, clock, Start);
            o.state.info.totalMeasures == if o.status == Returned then 1 else 0
  {
    RunQuietFrom(cfg, script, clock, Start);
    RunReports(cfg, script, clock);
  }

  /** 5000 bytes read as 4096 and 904 and then end of stream, one read per
      measure and a clock that never reaches a second: the loop returns
      after three reads with a single report of 5000 bytes, which prints
      as 5000 / 1024 KB, on stdout. */
  lemma FiveThousandBytes()
    ensures var script := [Ok(seq(4096, _ => 0 as byte)), Ok(seq(904, _ => 0 as byte)), Ok([])];
            var o := Run(Config(4096, 1, false), script, _ => Tick(0, 0.0), Start);
            o.status == Returned
            && o.state.pos == 3
            && o.state.info.totalBytesTransferred == 5000
            && o.state.info.totalMeasures == 1
            && |o.state.samples| == 1
            && o.state.samples[0].info.totalMeasures == 1
            && o.state.samples[0].info.totalBytesTransferred == 5000
            && ByteToMemUnits(o.state.samples[0].info.totalBytesTransferred as real) == Amount(5000.0 / 1024.0, KB)
            && o.state.stdout == ReportEvents(o.state.samples[0].info)
  {
    var script := [Ok(seq(4096, _ => 0 as byte)), Ok(seq(904, _ => 0 as byte)), Ok([])];
    var cfg, clock := Config(4096, 1, false), (_ => Tick(0, 0.0));
    assert FirstEnd(script[2..]) == 0;
    assert FirstEnd(script[1..]) == 1 by { assert script[1..][1..] == script[2..]; }
    assert FirstEnd(script) == 2;
    assert Consumed(script) == script;
    assert SumBytes(script[..1]) == 4096 by { assert script[..1][..0] == []; }
    assert SumBytes(script[..2]) == 5000 by { assert script[..2][..1] == script[..1]; }
    assert SumBytes(script) == 5000 by { assert script[..|script| - 1] == script[..2]; }
    RunConsumes(cfg, script, clock);
    RunCountsBytes(cfg, script, clock);
    RunStops(cfg, script, clock, Start);
    QuietClockOneReport(cfg, script, clock);
    RunReports(cfg, script, clock);
    RunRoutes(cfg, script, clock);
    RunReportInterval(cfg, script, clock, 0);
  }

  /** Three reads per measure, the second of which fails, then end of
      stream on the fourth, with a clock that always reports a whole
      second: the failed read uses up one of the three iterations, the
      first report fires after three reads with both bytes in its
      interval, and the error line is all of stderr. */
  lemma ErrorOnSecondOfThree()
    ensures var script := [Ok([1 as byte]), Err("e"), Ok([2 as byte]), Ok([])];
            var o := Run(Config(4, 3, false), script, _ => Tick(1, 1.0), Start);
            o.status == Returned
            && o.state.pos == 4
            && |o.state.samples| == 2
            && o.state.samples[0].at == 3
            && o.state.samples[0].info.lastBytesTransferred == 2
            && o.state.samples[1].at == 4 && o.state.samples[1].info.lastBytesTransferred == 0
            && o.state.stderr == [ReadErrorLine("e")]
  {
    var script := [Ok([1 as byte]), Err("e"), Ok([2 as byte]), Ok([])];
    var cfg, clock := Config(4, 3, false), (_ => Tick(1, 1.0));
    var s1 := ReadStep(cfg, script, Start);
    var s2 := ReadStep(cfg, script, s1);
    var s3 := ReadStep(cfg, script, s2);
    assert InnerStage(cfg, script, s3, 0) == Stage(s3, false, false);
    assert InnerStage(cfg, script, Start, 3) == Stage(s3, false, false);
    var m1 := Measure(cfg, s3, clock(0), false).(outer := 1);
    var s4 := ReadStep(cfg, script, m1);
    assert InnerStage(cfg, script, m1, 3) == Stage(s4, true, false);
    var m2 := Measure(cfg, s4, clock(1), true).(outer := 2);
    assert Run(cfg, script, clock, m1) == Outcome(Returned, m2);
    assert Run(cfg, script, clock, Start) == Outcome(Returned, m2);
  }

  // ---------------------------------------------------------------------
  // Properties of the reference definitions.
  // ---------------------------------------------------------------------

  /** The data writes carry exactly the payload, and there are as many
      bytes as the reads counted. */
  lemma {:induction false} DataStreamBytes(rs: seq<ReadResult>)
    ensures DataBytes(DataStream(rs)) == Payload(rs)
    ensures |Payload(rs)| == SumBytes(rs)
  {
    if rs != [] {
      var init, r := rs[..|rs| - 1], rs[|rs| - 1];
      DataStreamBytes(init);
      DataBytesAppend(DataStream(init), DataWrite(r));
      if r.Ok? && |r.data| > 0 {
        assert DataBytes(DataWrite(r)) == r.data by {
          assert DataWrite(r)[..0] == [];
        }
      }
    }
  }

  lemma {:induction false} DataBytesAppend(a: seq<Out>, b: seq<Out>)
    ensures DataBytes(a + b) == DataBytes(a) + DataBytes(b)
    decreases |b|
  {
    if b == [] {
      assert a + b == a;
    } else {
      assert (a + b)[..|a + b| - 1] == a + b[..|b| - 1];
      DataBytesAppend(a, b[..|b| - 1]);
    }
  }

  lemma {:induction false} DataStreamNoClear(rs: seq<ReadResult>)
    ensures ClearCount(DataStream(rs)) == 0
  {
    if rs != [] {
      DataStreamNoClear(rs[..|rs| - 1]);
      var w := DataWrite(rs[|rs| - 1]);
      ClearCountAppend(DataStream(rs[..|rs| - 1]), w);
      if w != [] {
        ClearCountSingle(w[0]);
      }
    }
  }
}
