/** What the program writes to its output streams, at the level of single
    write calls, and the terminal helpers that produce those writes: the
    ANSI cursor-up and clear-to-end-of-line sequences and fixed-width
    label padding. */
module Terminal {

  newtype byte = x: int | 0 <= x < 256

  /** One write to an output stream: data bytes copied from the source,
      literal text, or a number rendered with three decimals (the
      rendering itself is left abstract). */
  datatype Out = Data(bytes: seq<byte>) | Text(s: string) | Fixed3(value: real)

  const Esc: char := '\U{1B}'

  function DigitChar(d: nat): (c: char)
    requires d < 10
    ensures '0' <= c <= '9'
    ensures c as int - '0' as int == d
  {
    ('0' as int + d) as char
  }

  predicate IsDigits(s: string)
  {
    forall i :: 0 <= i < |s| ==> '0' <= s[i] <= '9'
  }

  /** The number a run of decimal digits denotes, most significant first. */
  function DigitsValue(s: string): nat
    requires IsDigits(s)
  {
    if s == [] then 0 else DigitsValue(s[..|s| - 1]) * 10 + (s[|s| - 1] as int - '0' as int)
  }

  /** Decimal rendering of a natural number, as `{}` prints a usize: the
      digits of `n`, without leading zeros. */
  function Decimal(n: nat): (s: string)
    ensures |s| >= 1 && IsDigits(s)
    ensures DigitsValue(s) == n
    ensures n >= 1 ==> s[0] != '0'
    ensures n < 10 <==> |s| == 1
  {
    if n < 10 then [DigitChar(n)]
    else
      var s := Decimal(n / 10) + [DigitChar(n % 10)];
      assert s[..|s| - 1] == Decimal(n / 10);
      s
  }

  /** term_move_up: `ESC [ <lines> A`. */
  function TermMoveUp(lines: nat): (s: string)
    ensures |s| >= 4 && s[..2] == [Esc, '['] && s[|s| - 1] == 'A'
    ensures '\n' !in s
  {
    [Esc, '['] + Decimal(lines) + "A"
  }

  /** term_clear_line: `ESC [ K` followed by a newline. */
  function TermClearLine(): string
  {
    [Esc, '[', 'K', '\n']
  }

  /** The write that ends every report line. */
  const ClearLine: Out := Text(TermClearLine())

  lemma MoveUpThree()
    ensures TermMoveUp(3) == [Esc, '[', '3', 'A']
  {
  }

  /** The characters of all text writes, in order. */
  function TextOf(w: seq<Out>): string
  {
    if w == [] then [] else TextOf(w[..|w| - 1]) + (var o := w[|w| - 1]; if o.Text? then o.s else [])
  }

  lemma {:induction false} TextOfAppend(a: seq<Out>, b: seq<Out>)
    ensures TextOf(a + b) == TextOf(a) + TextOf(b)
    decreases |b|
  {
    if b == [] {
      assert a + b == a;
    } else {
      assert (a + b)[..|a + b| - 1] == a + b[..|b| - 1];
      TextOfAppend(a, b[..|b| - 1]);
    }
  }

  /** Number of clear-line writes in a stream. */
  function ClearCount(w: seq<Out>): nat
  {
    if w == [] then 0 else ClearCount(w[..|w| - 1]) + (if w[|w| - 1] == ClearLine then 1 else 0)
  }

  lemma {:induction false} ClearCountAppend(a: seq<Out>, b: seq<Out>)
    ensures ClearCount(a + b) == ClearCount(a) + ClearCount(b)
    decreases |b|
  {
    if b == [] {
      assert a + b == a;
    } else {
      assert (a + b)[..|a + b| - 1] == a + b[..|b| - 1];
      ClearCountAppend(a, b[..|b| - 1]);
    }
  }

  lemma ClearCountSingle(o: Out)
    ensures ClearCount([o]) == if o == ClearLine then 1 else 0
  {
    assert [o][..0] == [];
  }

  /** `n` writes of a single space, as the padding loop issues them. */
  function Spaces(n: nat): seq<Out>
  {
    seq(n, _ => Text(" "))
  }

  /** What print_fixed_width writes: the text, then one space per column
      the text falls short of `columns`. */
  function FixedWidth(text: string, columns: nat): seq<Out>
  {
    [Text(text)] + (if |text| < columns then Spaces(columns - |text|) else [])
  }

  function Max(a: nat, b: nat): nat { if a < b then b else a }

  lemma {:induction false} TextOfSpaces(n: nat)
    ensures TextOf(Spaces(n)) == seq(n, _ => ' ')
  {
    if n > 0 {
      assert Spaces(n)[..n - 1] == Spaces(n - 1);
      TextOfSpaces(n - 1);
      assert seq(n, _ => ' ') == seq(n - 1, _ => ' ') + [' '];
    }
  }

  /** The padded label fills exactly max(|text|, columns) characters: the
      text itself, then only spaces. */
  lemma FixedWidthLayout(text: string, columns: nat)
    ensures |TextOf(FixedWidth(text, columns))| == Max(|text|, columns)
    ensures TextOf(FixedWidth(text, columns))[..|text|] == text
    ensures forall i :: |text| <= i < |TextOf(FixedWidth(text, columns))| ==> TextOf(FixedWidth(text, columns))[i] == ' '
  {
    var pad := if |text| < columns then Spaces(columns - |text|) else [];
    TextOfAppend([Text(text)], pad);
    assert [Text(text)][..0] == [];
    assert TextOf([Text(text)]) == text;
    if |text| < columns {
      TextOfSpaces(columns - |text|);
    }
  }

  /** No padding write is a clear-line write, and none holds a newline. */
  lemma FixedWidthPlain(text: string, columns: nat)
    requires '\n' !in text
    ensures ClearCount(FixedWidth(text, columns)) == 0
    ensures forall i :: 0 <= i < |FixedWidth(text, columns)| ==> FixedWidth(text, columns)[i].Text? && '\n' !in FixedWidth(text, columns)[i].s
  {
    var w := FixedWidth(text, columns);
    forall k | 0 <= k <= |w| ensures ClearCount(w[..k]) == 0 {
      NoClearPrefix(w, k);
    }
    assert w[..|w|] == w;
  }

  lemma {:induction false} NoClearPrefix(w: seq<Out>, k: nat)
    requires k <= |w|
    requires forall i :: 0 <= i < |w| ==> w[i] != ClearLine
    ensures ClearCount(w[..k]) == 0
  {
    if k > 0 {
      assert w[..k][..k - 1] == w[..k - 1];
      NoClearPrefix(w, k - 1);
    }
  }

  /** print_fixed_width, appending to the stream `output`: writes the text,
      then pads one space at a time. */
  method PrintFixedWidth(output: seq<Out>, text: string, columns: nat) returns (result: seq<Out>)
    ensures result == output + FixedWidth(text, columns)
  {
    result := output + [Text(text)];
    if |text| < columns {
      var remaining := columns - |text|;
      for i := 0 to remaining
        invariant result == output + [Text(text)] + Spaces(i)
      {
        assert Spaces(i + 1) == Spaces(i) + [Text(" ")];
        result := result + [Text(" ")];
      }
    }
  }
}
