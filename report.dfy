/** The transfer counters and the three-line report print_info renders
    from them. */
module Report {
  import opened Units
  import opened Terminal

  /** TransferInfo: the accumulator the sampling loop owns. Byte counts are
      unbounded naturals; the per-interval rates are reals. */
  datatype TransferInfo = TransferInfo(
    totalBytesTransferred: nat,   // all bytes read since the start
    totalMeasures: nat,           // reports emitted so far
    totalBps: real,               // sum of every interval's rate
    lastBps: real,                // rate of the interval being reported
    lastBytesTransferred: nat)    // bytes read in the current interval

  /** `TransferInfo::default()`: every counter zero. */
  const Default: TransferInfo := TransferInfo(0, 0, 0.0, 0.0, 0)

  const LabelWidth: nat := 24
  const DataLabel: string := "Data Transferred:"
  const SpeedLabel: string := "Transfer Speed:"
  const AverageLabel: string := "Average Transfer Speed:"

  /** One report line: the caption padded to the caption column, the amount
      with three decimals, its unit and a suffix, then clear-to-end-of-line. */
  function Line(caption: string, amount: Amount, suffix: string): seq<Out>
  {
    FixedWidth(caption, LabelWidth) + [Fixed3(amount.value), Text(" " + Name(amount.unit) + suffix), ClearLine]
  }

  /** The arithmetic mean of the interval rates reported so far. */
  function AverageBps(info: TransferInfo): real
    requires info.totalMeasures >= 1
  {
    info.totalBps / info.totalMeasures as real
  }

  /** Everything print_info writes for `info`: the cursor-up sequence
      unless this is the first report, then the total, the last interval's
      rate and the average rate, one line each. */
  function ReportEvents(info: TransferInfo): seq<Out>
    requires info.totalMeasures >= 1
  {
    (if info.totalMeasures > 1 then [Text(TermMoveUp(3))] else [])
    + Line(DataLabel, ByteToMemUnits(info.totalBytesTransferred as real),
           " (" + Decimal(info.totalMeasures) + " cycles)")
    + Line(SpeedLabel, ByteToMemUnits(info.lastBps), "/sec")
    + Line(AverageLabel, ByteToMemUnits(AverageBps(info)), "/sec")
  }

  /** One line of print_info: the padded caption, the amount and its unit
      with a suffix, then term_clear_line. */
  method PrintLine(output: seq<Out>, caption: string, amount: Amount, suffix: string) returns (result: seq<Out>)
    ensures result == output + Line(caption, amount, suffix)
  {
    result := PrintFixedWidth(output, caption, LabelWidth);
    result := result + [Fixed3(amount.value), Text(" " + Name(amount.unit) + suffix)];
    result := result + [ClearLine];
  }

  /** print_info, appending to the stream `output`. */
  method PrintInfo(output: seq<Out>, info: TransferInfo) returns (result: seq<Out>)
    requires info.totalMeasures >= 1
    ensures result == output + ReportEvents(info)
  {
    ghost var up: seq<Out> := if info.totalMeasures > 1 then [Text(TermMoveUp(3))] else [];
    result := output;
    if info.totalMeasures > 1 {
      result := result + [Text(TermMoveUp(3))];
    }
    assert result == output + up;

    var total := ByteToMemUnits(info.totalBytesTransferred as real);
    var cycles := " (" + Decimal(info.totalMeasures) + " cycles)";
    result := PrintLine(result, DataLabel, total, cycles);

    var single := ByteToMemUnits(info.lastBps);
    result := PrintLine(result, SpeedLabel, single, "/sec");

    var avg := ByteToMemUnits(info.totalBps / info.totalMeasures as real);
    result := PrintLine(result, AverageLabel, avg, "/sec");

    ReportEventsParts(info, up, total, cycles, single, avg);
    AppendFour(output, up, Line(DataLabel, total, cycles), Line(SpeedLabel, single, "/sec"), Line(AverageLabel, avg, "/sec"));
  }

  lemma AppendFour<T>(o: seq<T>, a: seq<T>, b: seq<T>, c: seq<T>, d: seq<T>)
    ensures o + a + b + c + d == o + (a + b + c + d)
  {
  }

  /** ReportEvents(info) split into the cursor-up prefix and its three lines. */
  lemma ReportEventsParts(info: TransferInfo, up: seq<Out>, total: Amount, cycles: string, single: Amount, avg: Amount)
    requires info.totalMeasures >= 1
    requires up == if info.totalMeasures > 1 then [Text(TermMoveUp(3))] else []
    requires total == ByteToMemUnits(info.totalBytesTransferred as real)
    requires cycles == " (" + Decimal(info.totalMeasures) + " cycles)"
    requires single == ByteToMemUnits(info.lastBps)
    requires avg == ByteToMemUnits(AverageBps(info))
    ensures ReportEvents(info) == up + Line(DataLabel, total, cycles) + Line(SpeedLabel, single, "/sec") + Line(AverageLabel, avg, "/sec")
  {
  }

  /** Only clear-line writes hold a newline. */
  ghost predicate NewlinesOnlyInClear(w: seq<Out>)
  {
    forall i :: 0 <= i < |w| && w[i].Text? && '\n' in w[i].s ==> w[i] == ClearLine
  }

  lemma NewlinesAppend(a: seq<Out>, b: seq<Out>)
    requires NewlinesOnlyInClear(a) && NewlinesOnlyInClear(b)
    ensures NewlinesOnlyInClear(a + b)
  {
    forall i | 0 <= i < |a + b| && (a + b)[i].Text? && '\n' in (a + b)[i].s
      ensures (a + b)[i] == ClearLine
    {
      if i >= |a| { assert (a + b)[i] == b[i - |a|]; }
    }
  }

  lemma NameHasNoNewline(u: Unit)
    ensures '\n' !in Name(u)
  {
  }

  lemma {:induction false} LineLayout(caption: string, amount: Amount, suffix: string)
    requires '\n' !in caption && '\n' !in suffix
    ensures ClearCount(Line(caption, amount, suffix)) == 1
    ensures NewlinesOnlyInClear(Line(caption, amount, suffix))
    ensures |Line(caption, amount, suffix)| >= 1 && Line(caption, amount, suffix)[0] == Text(caption)
    ensures Line(caption, amount, suffix)[|Line(caption, amount, suffix)| - 1] == ClearLine
  {
    var pad := FixedWidth(caption, LabelWidth);
    var value := Text(" " + Name(amount.unit) + suffix);
    FixedWidthPlain(caption, LabelWidth);
    NameHasNoNewline(amount.unit);
    assert '\n' !in value.s;
    ClearCountSingle(Fixed3(amount.value));
    ClearCountSingle(value);
    ClearCountSingle(ClearLine);
    ClearCountAppend(pad, [Fixed3(amount.value)]);
    ClearCountAppend(pad + [Fixed3(amount.value)], [value]);
    ClearCountAppend(pad + [Fixed3(amount.value)] + [value], [ClearLine]);
    assert Line(caption, amount, suffix) == pad + [Fixed3(amount.value)] + [value] + [ClearLine];
  }

  /** The three properties of a layout, for a concatenation of four parts. */
  lemma LayoutOfParts(up: seq<Out>, l1: seq<Out>, l2: seq<Out>, l3: seq<Out>)
    requires ClearCount(up) == 0 && NewlinesOnlyInClear(up)
    requires ClearCount(l1) == 1 && ClearCount(l2) == 1 && ClearCount(l3) == 1
    requires NewlinesOnlyInClear(l1) && NewlinesOnlyInClear(l2) && NewlinesOnlyInClear(l3)
    requires |l3| >= 1 && l3[|l3| - 1] == ClearLine
    ensures ClearCount(up + l1 + l2 + l3) == 3
    ensures NewlinesOnlyInClear(up + l1 + l2 + l3)
    ensures (up + l1 + l2 + l3)[|up + l1 + l2 + l3| - 1] == ClearLine
  {
    ClearCountAppend(up, l1);
    ClearCountAppend(up + l1, l2);
    ClearCountAppend(up + l1 + l2, l3);
    NewlinesAppend(up, l1);
    NewlinesAppend(up + l1, l2);
    NewlinesAppend(up + l1 + l2, l3);
  }

  lemma CaptionsPlain()
    ensures '\n' !in DataLabel && '\n' !in SpeedLabel && '\n' !in AverageLabel && '\n' !in "/sec"
    ensures DataLabel[0] != Esc
  {
  }

  lemma CyclesPlain(n: nat)
    ensures '\n' !in " (" + Decimal(n) + " cycles)"
  {
    var d := Decimal(n);
    assert forall i :: 0 <= i < |d| ==> d[i] != '\n';
  }

  /** The cursor-up prefix of a report holds no line end. */
  lemma MoveUpPlain(up: seq<Out>)
    requires up == [] || up == [Text(TermMoveUp(3))]
    ensures ClearCount(up) == 0 && NewlinesOnlyInClear(up)
  {
    if up != [] {
      ClearCountSingle(Text(TermMoveUp(3)));
    }
  }

  /** The layout of one report: it begins with the cursor-up sequence
      exactly when an earlier report exists; it holds three lines, each
      ending in clear-to-end-of-line and a newline, and no other newline. */
  lemma ReportLayout(info: TransferInfo)
    requires info.totalMeasures >= 1
    ensures |ReportEvents(info)| >= 1
    ensures (ReportEvents(info)[0] == Text(TermMoveUp(3))) <==> info.totalMeasures > 1
    ensures ClearCount(ReportEvents(info)) == 3
    ensures NewlinesOnlyInClear(ReportEvents(info))
    ensures ReportEvents(info)[|ReportEvents(info)| - 1] == ClearLine
  {
    var up: seq<Out> := if info.totalMeasures > 1 then [Text(TermMoveUp(3))] else [];
    var cycles := " (" + Decimal(info.totalMeasures) + " cycles)";
    var a1, a2, a3 := ByteToMemUnits(info.totalBytesTransferred as real), ByteToMemUnits(info.lastBps), ByteToMemUnits(AverageBps(info));
    var l1, l2, l3 := Line(DataLabel, a1, cycles), Line(SpeedLabel, a2, "/sec"), Line(AverageLabel, a3, "/sec");
    CaptionsPlain();
    CyclesPlain(info.totalMeasures);
    LineLayout(DataLabel, a1, cycles);
    LineLayout(SpeedLabel, a2, "/sec");
    LineLayout(AverageLabel, a3, "/sec");
    MoveUpPlain(up);
    LayoutOfParts(up, l1, l2, l3);
    assert ReportEvents(info) == up + l1 + l2 + l3;
    assert (up + l1 + l2 + l3)[0] == if up == [] then l1[0] else up[0];
  }
}
