/**
  Model of software/Src/orbtrace.c: the command-line front end of the
  Orbtrace tool. `_processOptions` runs over the option stream and collects
  an options record and a count of requested device changes, then applies
  its sanity rules; `_checkVoltages` applies the voltage rule; `_selectDevice`
  prints the table of matching devices and picks one.

  getopt is an abstract input: the sequence of characters it returns, each
  with its argument, and for the numeric options the number `atoi` or the
  millivolt conversion makes of it. The text `_selectDevice` prints is
  returned as a string, and the numbers `scanf` reads are an input sequence.
*/
module Orbtrace {

  import opened Wrappers
  import Generics
  import opened OrbtraceInterface

  /** DONTSET: the value of a numeric option that was not given. */
  const DONTSET: int := -1

  /** EOL as defined for the Linux build. */
  const EOL: string := "\n"

  /** The `MAX` macro. */
  function Max(a: int, b: int): (m: int)
    ensures m >= a && m >= b && (m == a || m == b)
  {
    if a > b then a else b
  }

  // ---------------------------------------------------------------------------
  // Options
  // ---------------------------------------------------------------------------

  /** The `options` record; `qQuery` is never assigned and is not modelled. */
  datatype Options = Options(sn: Option<string>, nick: Option<string>, brightness: int, traceWidth: int,
                             forceVoltage: bool, opJSON: bool, listDevices: bool,
                             TPwrmv: int, TRefmv: int, writeParams: bool, resetParams: bool,
                             unlock: bool, lock: bool, setCount: int)

  /** The initial value of `options`: the numeric settings DONTSET, everything else zero. */
  const DEFAULT_OPTIONS: Options :=
    Options(None, None, DONTSET, DONTSET, false, false, false, DONTSET, DONTSET, false, false, false, false, 0)

  /**
    One option on the command line: its letter, the argument that follows it
    if any, and the number made of that argument (`atoi` for b, o and v;
    millivolts for p and r).
  */
  datatype Opt = Opt(letter: char, optarg: Option<string>, value: int)

  /** The letters of getopt's option string "b:f:hlLn:o:qQ:p:r:s:Uv:wW". */
  predicate InOptString(c: char)
  {
    c == 'b' || c == 'f' || c == 'h' || c == 'l' || c == 'L' || c == 'n' || c == 'o' || c == 'q' ||
    c == 'Q' || c == 'p' || c == 'r' || c == 's' || c == 'U' || c == 'v' || c == 'w' || c == 'W'
  }

  /** The letters the option string marks as taking an argument. */
  predicate TakesArgument(c: char)
  {
    c == 'b' || c == 'f' || c == 'n' || c == 'o' || c == 'Q' || c == 'p' || c == 'r' || c == 's' || c == 'v'
  }

  /** What getopt returns for one option: its letter, or '?' for a letter not in the option string or a missing argument. */
  function Getopt(a: Opt): (c: char)
    ensures InOptString(a.letter) && (a.optarg.Some? || !TakesArgument(a.letter)) ==> c == a.letter
    ensures !InOptString(a.letter) || (TakesArgument(a.letter) && a.optarg.None?) ==> c == '?'
  {
    if InOptString(a.letter) && (a.optarg.Some? || !TakesArgument(a.letter)) then a.letter else '?'
  }

  /** The argument text getopt hands over in `optarg`. */
  function Argument(a: Opt): string
  {
    if a.optarg.Some? then a.optarg.value else ""
  }

  /** The options that request a change on the device, and so count in `setCount`. */
  predicate IsSetter(c: char)
  {
    c == 'b' || c == 'L' || c == 'n' || c == 'o' || c == 'p' || c == 'r' || c == 'U' || c == 'W'
  }

  /** The characters the switch has a case for, other than `h` and `?`. */
  predicate IsHandled(c: char)
  {
    IsSetter(c) || c == 'F' || c == 'j' || c == 'l' || c == 's' || c == 'v' || c == 'w'
  }

  /** The options record, the report level, and whether `_processOptions` has already returned false. */
  datatype ParseState = ParseState(opts: Options, level: int, stopped: bool)

  /** The record update the switch makes for the character `c` getopt returned for `a`, other than `v`, `h` and `?`. */
  function SetOption(o: Options, c: char, a: Opt): (r: Options)
    requires IsHandled(c) && c != 'v'
    ensures IsSetter(c) ==> r.setCount == o.setCount + 1
    ensures !IsSetter(c) ==> r.setCount == o.setCount
    ensures o.resetParams ==> r.resetParams
    ensures o.listDevices ==> r.listDevices
    ensures c == 'W' ==> r.resetParams
    ensures c == 'l' ==> r.listDevices
  {
    match c
    case 'b' => o.(brightness := a.value, setCount := o.setCount + 1)
    case 'F' => o.(forceVoltage := true)
    case 'j' => o.(opJSON := true)
    case 'l' => o.(listDevices := true)
    case 'L' => o.(lock := true, setCount := o.setCount + 1)
    case 'n' => o.(nick := Some(Argument(a)), setCount := o.setCount + 1)
    case 'o' => o.(traceWidth := a.value, setCount := o.setCount + 1)
    case 'p' => o.(TPwrmv := a.value, setCount := o.setCount + 1)
    case 'r' => o.(TRefmv := a.value, setCount := o.setCount + 1)
    case 's' => o.(sn := Some(Argument(a)))
    case 'U' => o.(unlock := true, setCount := o.setCount + 1)
    case 'w' => o.(writeParams := true)
    case 'W' => o.(resetParams := true, setCount := o.setCount + 1)
  }

  /**
    One pass of the getopt loop: getopt classifies the option, `v` sets the
    report level, and `h`, `?` and every character without a case make
    `_processOptions` return false.
  */
  function ApplyOption(st: ParseState, a: Opt): (r: ParseState)
    ensures r.stopped <==> st.stopped || !IsHandled(Getopt(a))
    ensures st.stopped ==> r == st
    ensures r.opts.setCount >= st.opts.setCount
    ensures !r.stopped && IsSetter(Getopt(a)) ==> r.opts.setCount == st.opts.setCount + 1
    ensures st.opts.resetParams ==> r.opts.resetParams
    ensures st.opts.listDevices ==> r.opts.listDevices
    ensures !st.stopped && a.letter == 'W' ==> r.opts.resetParams
    ensures !st.stopped && a.letter == 'l' ==> r.opts.listDevices
  {
    var c := Getopt(a);
    if st.stopped then st
    else if !IsHandled(c) then st.(stopped := true)
    else if c == 'v' then st.(level := a.value)
    else st.(opts := SetOption(st.opts, c, a))
  }

  /** The getopt loop over the first `n` options. */
  function Parse(args: seq<Opt>, st0: ParseState, n: nat): ParseState
    requires n <= |args|
  {
    if n == 0 then st0 else ApplyOption(Parse(args, st0, n - 1), args[n - 1])
  }

  /** `_checkVoltages`' verdict. */
  datatype VoltageCheck = VoltagesOk | IllegalTRef | IllegalTPwr

  /** `_checkVoltages`, with `validate` standing for OrbtraceIfValidateVoltage: TRef is checked first; DONTSET values are skipped. */
  function CheckVoltages(o: Options, validate: int -> bool): (r: VoltageCheck)
    ensures r == IllegalTRef <==> o.TRefmv != DONTSET && !validate(o.TRefmv)
    ensures r == IllegalTPwr <==> (o.TRefmv == DONTSET || validate(o.TRefmv)) && o.TPwrmv != DONTSET && !validate(o.TPwrmv)
    ensures r == VoltagesOk <==> (o.TRefmv == DONTSET || validate(o.TRefmv)) && (o.TPwrmv == DONTSET || validate(o.TPwrmv))
  {
    if o.TRefmv != DONTSET && !validate(o.TRefmv) then IllegalTRef
    else if o.TPwrmv != DONTSET && !validate(o.TPwrmv) then IllegalTPwr
    else VoltagesOk
  }

  /** The trace-width test AS WRITTEN: the last conjunct makes the first three redundant. */
  predicate WidthRejected(w: int)
  {
    w != DONTSET && w != 1 && w != 2 && w == 4
  }

  /** The outcome of the sanity rules, in the order they are applied. */
  datatype Verdict = Accepted | ResetWhileSetting | ListWhileSetting | IllegalWidth | IllegalVoltage | BrightnessOutOfRange

  /** The sanity rules after the getopt loop, with `validate` standing for OrbtraceIfValidateVoltage. */
  function Sanity(o: Options, validate: int -> bool): Verdict
  {
    if o.setCount != 0 && o.resetParams then ResetWhileSetting
    else if o.setCount != 0 && o.listDevices then ListWhileSetting
    else if WidthRejected(o.traceWidth) then IllegalWidth
    else if CheckVoltages(o, validate) != VoltagesOk then IllegalVoltage
    else if o.brightness != DONTSET && (o.brightness < 0 || o.brightness > 255) then BrightnessOutOfRange
    else Accepted
  }

  /** What `_processOptions` returns for the option stream `args`, starting from `st0`. */
  predicate Accepts(args: seq<Opt>, st0: ParseState)
  {
    var st := Parse(args, st0, |args|);
    !st.stopped && Sanity(st.opts, OrbtraceIf.ValidateVoltage) == Accepted
  }

  /** The start state of the only call, from main: the initial `options` and the initial report level. */
  function InitialState(): ParseState
  {
    ParseState(DEFAULT_OPTIONS, Generics.V_WARN, false)
  }

  // ---------------------------------------------------------------------------
  // Properties of the option rules
  // ---------------------------------------------------------------------------

  function CountSetters(args: seq<Opt>): nat
  {
    if args == [] then 0 else CountSetters(args[..|args| - 1]) + (if IsSetter(Getopt(args[|args| - 1])) then 1 else 0)
  }

  /** While no option stops the loop, `setCount` grows by one for each b, L, n, o, p, r, U and W, and for nothing else. */
  lemma {:induction false} SetCountTally(args: seq<Opt>, st0: ParseState, n: nat)
    requires n <= |args| && !Parse(args, st0, n).stopped
    ensures Parse(args, st0, n).opts.setCount == st0.opts.setCount + CountSetters(args[..n])
  {
    if n > 0 {
      assert args[..n][..n - 1] == args[..n - 1];
      SetCountTally(args, st0, n - 1);
    }
  }

  /** Once set, the reset and list flags stay set, `setCount` never falls, and a stopped loop stays stopped. */
  lemma {:induction false} ParseMonotone(args: seq<Opt>, st0: ParseState, m: nat, n: nat)
    requires m <= n <= |args|
    ensures var a, b := Parse(args, st0, m), Parse(args, st0, n);
            a.opts.setCount <= b.opts.setCount &&
            (a.opts.resetParams ==> b.opts.resetParams) &&
            (a.opts.listDevices ==> b.opts.listDevices) &&
            (a.stopped ==> b.stopped)
    decreases n - m
  {
    if m < n {
      ParseMonotone(args, st0, m, n - 1);
    }
  }

  /** An option stream holding `-W` is always refused: `-W` itself counts in `setCount`. */
  lemma ResetAlwaysRefused(args: seq<Opt>, st0: ParseState, j: nat)
    requires st0.opts.setCount >= 0
    requires j < |args| && args[j].letter == 'W'
    ensures !Accepts(args, st0)
  {
    var fin := Parse(args, st0, |args|);
    ParseMonotone(args, st0, 0, j);
    ParseMonotone(args, st0, j + 1, |args|);
    if !fin.stopped {
      var at := Parse(args, st0, j + 1);
      assert at == ApplyOption(Parse(args, st0, j), args[j]);
      assert at.opts.resetParams && at.opts.setCount >= 1;
      assert fin.opts.resetParams && fin.opts.setCount >= 1;
      assert Sanity(fin.opts, OrbtraceIf.ValidateVoltage) == ResetWhileSetting;
    }
  }

  /** Listing devices together with any option that changes the device is refused. */
  lemma ListWithSetterRefused(args: seq<Opt>, st0: ParseState, j: nat, k: nat)
    requires st0.opts.setCount >= 0
    requires j < |args| && args[j].letter == 'l'
    requires k < |args| && IsSetter(Getopt(args[k]))
    ensures !Accepts(args, st0)
  {
    var fin := Parse(args, st0, |args|);
    ParseMonotone(args, st0, 0, k);
    ParseMonotone(args, st0, k + 1, |args|);
    ParseMonotone(args, st0, j + 1, |args|);
    if !fin.stopped {
      var atK, atJ := Parse(args, st0, k + 1), Parse(args, st0, j + 1);
      assert atK == ApplyOption(Parse(args, st0, k), args[k]);
      assert atJ == ApplyOption(Parse(args, st0, j), args[j]);
      assert atK.opts.setCount >= 1 && atJ.opts.listDevices;
      assert fin.opts.setCount >= 1 && fin.opts.listDevices;
      if fin.opts.resetParams {
        assert Sanity(fin.opts, OrbtraceIf.ValidateVoltage) == ResetWhileSetting;
      } else {
        assert Sanity(fin.opts, OrbtraceIf.ValidateVoltage) == ListWhileSetting;
      }
    }
  }

  /** An option for which getopt returns a character without a case in the switch makes the whole command line refused. */
  lemma UnhandledOptionsRefused(args: seq<Opt>, st0: ParseState, j: nat)
    requires j < |args| && !IsHandled(Getopt(args[j]))
    ensures !Accepts(args, st0)
  {
    ParseMonotone(args, st0, j + 1, |args|);
  }

  /**
    Which options never get past the switch: -h; -f, -q and -Q, which are in
    getopt's option string but have no case; -F and -j, which have a case but
    are not in the option string, so getopt returns '?' for them and their
    cases are never reached; any other letter; and a missing argument.
  */
  lemma RefusedLetters(a: Opt)
    ensures a.letter == 'h' || a.letter == 'f' || a.letter == 'q' || a.letter == 'Q' ==> !IsHandled(Getopt(a))
    ensures a.letter == 'F' || a.letter == 'j' ==> !IsHandled(Getopt(a))
    ensures Getopt(a) != 'F' && Getopt(a) != 'j'
    ensures !InOptString(a.letter) || (TakesArgument(a.letter) && a.optarg.None?) ==> !IsHandled(Getopt(a))
    ensures (InOptString(a.letter) && (a.optarg.Some? || !TakesArgument(a.letter)) &&
             a.letter != 'h' && a.letter != 'f' && a.letter != 'q' && a.letter != 'Q') ==> IsHandled(Getopt(a))
  {
  }

  /** The width test refuses only 4, the one width the usage text offers besides 1 and 2; 3 passes. */
  lemma WidthRejectedOnlyFour(w: int)
    ensures WidthRejected(w) <==> w == 4
    ensures !WidthRejected(3) && !WidthRejected(1) && !WidthRejected(2)
  {
  }

  /** Called with the stub validator, the voltage check never refuses anything. */
  lemma StubVoltagesAlwaysPass(o: Options)
    ensures CheckVoltages(o, OrbtraceIf.ValidateVoltage) == VoltagesOk
  {
  }

  /**
    Once the first three rules pass, the options are refused exactly when a
    brightness is set outside [0, 255]; a brightness of -1 counts as not set.
  */
  lemma BrightnessRule(o: Options)
    requires !(o.setCount != 0 && (o.resetParams || o.listDevices)) && o.traceWidth != 4
    ensures Sanity(o, OrbtraceIf.ValidateVoltage) != Accepted <==>
              o.brightness != DONTSET && (o.brightness < 0 || o.brightness > 255)
    ensures Sanity(o, OrbtraceIf.ValidateVoltage) != Accepted ==> Sanity(o, OrbtraceIf.ValidateVoltage) == BrightnessOutOfRange
  {
    StubVoltagesAlwaysPass(o);
  }

  /** `-o 3 -b 200` is accepted, `-o 4` is not. */
  lemma WidthExamples()
    ensures Accepts([Opt('o', Some("3"), 3), Opt('b', Some("200"), 200)], InitialState())
    ensures !Accepts([Opt('o', Some("4"), 4)], InitialState())
  {
    var a := [Opt('o', Some("3"), 3), Opt('b', Some("200"), 200)];
    assert Parse(a, InitialState(), 2).opts == DEFAULT_OPTIONS.(traceWidth := 3, brightness := 200, setCount := 2);
    StubVoltagesAlwaysPass(DEFAULT_OPTIONS.(traceWidth := 3, brightness := 200, setCount := 2));
    assert Parse([Opt('o', Some("4"), 4)], InitialState(), 1).opts == DEFAULT_OPTIONS.(traceWidth := 4, setCount := 1);
  }

  // ---------------------------------------------------------------------------
  // The device table
  // ---------------------------------------------------------------------------

  /** The three strings the table shows for one device. */
  datatype Entry = Entry(manufacturer: string, product: string, sn: string)

  /** What the accessors return for devices 0 to n - 1. */
  function Listing(o: OrbtraceIf, n: int): (l: seq<Entry>)
    reads o
    requires o.Valid()
    ensures |l| == Max(n, 0)
  {
    if n <= 0 then [] else Listing(o, n - 1) + [Entry(o.GetManufacturer(n - 1), o.GetProduct(n - 1), o.GetSN(n - 1))]
  }

  /** Entry i of the listing is what the accessors return for device i. */
  lemma {:induction false} ListingAt(o: OrbtraceIf, n: int, i: nat)
    requires o.Valid() && i < n
    ensures Listing(o, n)[i] == Entry(o.GetManufacturer(i), o.GetProduct(i), o.GetSN(i))
    decreases n
  {
    if i < n - 1 {
      ListingAt(o, n - 1, i);
    }
  }

  /** The width one row asks for: at least 11 for the description, at least 6 for the serial. */
  function RowWidth(e: Entry): int
  {
    Max(11, |e.manufacturer| + |e.product|) + Max(6, |e.sn|)
  }

  function MaxRowWidth(l: seq<Entry>): int
  {
    if l == [] then 0 else Max(MaxRowWidth(l[..|l| - 1]), RowWidth(l[|l| - 1]))
  }

  /** `descWidth`: one more than the widest row. */
  function DescWidth(l: seq<Entry>): int
  {
    MaxRowWidth(l) + 1
  }

  /** `k` copies of `c`, none when `k` is not positive. */
  function Fill(c: char, k: int): (s: string)
    ensures |s| == Max(k, 0) && forall i | 0 <= i < |s| :: s[i] == c
    decreases k
  {
    if k <= 0 then "" else Fill(c, k - 1) + [c]
  }

  function Digit(d: nat): char
    requires d < 10
  {
    "0123456789"[d]
  }

  function Decimal(n: nat): (s: string)
    ensures 1 <= |s| && (n < 10 <==> |s| == 1)
  {
    if n < 10 then [Digit(n)] else Decimal(n / 10) + [Digit(n % 10)]
  }

  /** `%2i` for a positive number: right-aligned in two columns. */
  function Ordinal(n: nat): (s: string)
    ensures n < 100 ==> |s| == 2
  {
    if n < 10 then " " + Decimal(n) else Decimal(n)
  }

  function Header(w: int): string
  {
    "Id | " + Fill(' ', (w + 1) / 2 - 6) + "Description" + Fill(' ', w / 2 - 6) + " | Serial" + EOL
  }

  function Rule(w: int): string
  {
    Fill('-', w + 5 + 10) + EOL
  }

  function Row(i: nat, e: Entry, w: int): string
  {
    Ordinal(i + 1) + " | " + e.manufacturer + " " + e.product +
    Fill(' ', w - (|e.manufacturer| + |e.product| + 1)) + "| " + e.sn + EOL
  }

  function Rows(l: seq<Entry>, w: int): string
  {
    if l == [] then "" else Rows(l[..|l| - 1], w) + Row(|l| - 1, l[|l| - 1], w)
  }

  function Table(l: seq<Entry>): string
  {
    Header(DescWidth(l)) + Rule(DescWidth(l)) + Rows(l, DescWidth(l))
  }

  function Prompts(k: nat): string
  {
    if k == 0 then "" else Prompts(k - 1) + EOL + "Selection>"
  }

  /** The position of the first number from `from` on that is in [1, n]. */
  function FirstInRange(inputs: seq<int>, n: int, from: nat): (r: Option<nat>)
    requires from <= |inputs|
    ensures r.Some? ==> from <= r.value < |inputs| && 1 <= inputs[r.value] <= n &&
                        forall j | from <= j < r.value :: !(1 <= inputs[j] <= n)
    ensures r.None? ==> forall j | from <= j < |inputs| :: !(1 <= inputs[j] <= n)
    decreases |inputs| - from
  {
    if from == |inputs| then None
    else if 1 <= inputs[from] <= n then Some(from)
    else FirstInRange(inputs, n, from + 1)
  }

  /** The number the prompt loop settles on: the first input in [1, n], if any. */
  function Answer(inputs: seq<int>, n: int): (r: Option<int>)
    ensures r.Some? ==> 1 <= r.value <= n
    ensures r.Some? <==> exists j | 0 <= j < |inputs| :: 1 <= inputs[j] <= n
  {
    match FirstInRange(inputs, n, 0)
    case Some(k) => Some(inputs[k])
    case None => None
  }

  /** How many prompts the loop prints: one per input read, and one more that waits for ever when none is in range. */
  function PromptCount(inputs: seq<int>, n: int): nat
  {
    match FirstInRange(inputs, n, 0)
    case Some(k) => k + 1
    case None => |inputs| + 1
  }

  /** `descWidth` - 1 is the width of the widest row. */
  lemma {:induction false} MaxRowWidthIsMax(l: seq<Entry>)
    ensures forall e | e in l :: RowWidth(e) <= MaxRowWidth(l)
    ensures l != [] ==> exists e | e in l :: RowWidth(e) == MaxRowWidth(l)
  {
    if l != [] {
      var l' := l[..|l| - 1];
      MaxRowWidthIsMax(l');
      assert l == l' + [l[|l| - 1]];
    }
  }

  /** Every row's padding is positive, so the description column is never overrun. */
  lemma RowPadding(l: seq<Entry>, i: nat)
    requires i < |l|
    ensures DescWidth(l) - (|l[i].manufacturer| + |l[i].product| + 1) >= 6
  {
    MaxRowWidthIsMax(l);
    assert l[i] in l;
  }

  /** The rule under the header is `descWidth + 15` dashes. */
  lemma RuleLength(w: int)
    requires w >= 0
    ensures |Rule(w)| == w + 15 + |EOL| && forall i | 0 <= i < w + 15 :: Rule(w)[i] == '-'
  {
  }

  /** (w + 1) / 2 + w / 2 == w for C's truncating division of a non-negative width. */
  lemma HalvesAddUp(w: int)
    requires w >= 0
    ensures (w + 1) / 2 + w / 2 == w
    ensures w >= 12 ==> (w + 1) / 2 - 6 >= 0 && w / 2 - 6 >= 0
  {
  }

  /** The bar before "Serial" in the header stands in column w + 5. */
  lemma HeaderBar(w: int)
    requires w >= 12
    ensures |Header(w)| > w + 5 && Header(w)[w + 5] == '|'
  {
    HalvesAddUp(w);
    var a, b := (w + 1) / 2 - 6, w / 2 - 6;
    assert |Fill(' ', a)| == a && |Fill(' ', b)| == b && a + b == w - 12;
    var x := "Id | " + Fill(' ', a) + "Description" + Fill(' ', b);
    assert |x| == w + 4;
    assert Header(w) == x + " | Serial" + EOL;
  }

  /** The bar before the serial in row i stands in column w + 5 when the description fits and i + 1 has two digits at most. */
  lemma RowBar(i: nat, e: Entry, w: int)
    requires i + 1 < 100 && w >= |e.manufacturer| + |e.product| + 1
    ensures |Row(i, e, w)| > w + 5 && Row(i, e, w)[w + 5] == '|'
  {
    var x := Ordinal(i + 1) + " | " + e.manufacturer + " " + e.product + Fill(' ', w - (|e.manufacturer| + |e.product| + 1));
    assert |x| == w + 5;
    assert Row(i, e, w) == x + "| " + e.sn + EOL;
  }

  /**
    With at least one device, the bar before "Serial" in the header and the
    bar before each of the first 99 serials stand in the same column, w + 5.
  */
  lemma ColumnsAligned(l: seq<Entry>, i: nat)
    requires i < |l| && i + 1 < 100
    ensures var w := DescWidth(l);
            |Header(w)| > w + 5 && Header(w)[w + 5] == '|' &&
            |Row(i, l[i], w)| > w + 5 && Row(i, l[i], w)[w + 5] == '|'
  {
    RowPadding(l, i);
    HeaderBar(DescWidth(l));
    RowBar(i, l[i], DescWidth(l));
  }

  /** The padding and rule loops of `_selectDevice`: `k` copies of `c` printed after `out`. */
  method AppendFill(out: string, c: char, k: int) returns (r: string)
    ensures r == out + Fill(c, k)
  {
    r := out;
    var i := 0;
    while i < k
      invariant 0 <= i <= Max(k, 0)
      invariant r == out + Fill(c, i)
    {
      r := r + [c];
      i := i + 1;
    }
  }

  lemma Assoc(a: string, b: string, c: string)
    ensures (a + b) + c == a + (b + c)
  {
  }

  lemma TakeSnoc<T>(l: seq<T>, i: nat)
    requires i < |l|
    ensures l[..i + 1] == l[..i] + [l[i]]
  {
  }

  lemma DropSnoc<T>(l: seq<T>, e: T)
    ensures (l + [e])[..|l|] == l
  {
  }

  lemma MaxRowWidthSnoc(l: seq<Entry>, e: Entry)
    ensures MaxRowWidth(l + [e]) == Max(MaxRowWidth(l), RowWidth(e))
  {
    DropSnoc(l, e);
  }

  lemma RowsSnoc(l: seq<Entry>, e: Entry, w: int)
    ensures Rows(l + [e], w) == Rows(l, w) + Row(|l|, e, w)
  {
    DropSnoc(l, e);
  }

  /** The first loop of `_selectDevice`: `descWidth` before its final increment. */
  method WidestRow(o: OrbtraceIf, ndevices: int) returns (descWidth: int)
    requires o.Valid()
    ensures descWidth == MaxRowWidth(Listing(o, ndevices))
  {
    descWidth := 0;
    var i := 0;
    while i < ndevices
      invariant 0 <= i <= Max(ndevices, 0)
      invariant descWidth == MaxRowWidth(Listing(o, i))
    {
      var l := Max(11, |o.GetManufacturer(i)| + |o.GetProduct(i)|) + Max(6, |o.GetSN(i)|);
      MaxRowWidthSnoc(Listing(o, i), Entry(o.GetManufacturer(i), o.GetProduct(i), o.GetSN(i)));
      if l > descWidth {
        descWidth := l;
      }
      i := i + 1;
    }
    assert Listing(o, i) == Listing(o, ndevices);
  }

  /** The header of the table and the rule under it, for width `descWidth`. */
  method PrintHeader(descWidth: int) returns (out: string)
    ensures out == Header(descWidth) + Rule(descWidth)
  {
    var header := "Id | ";
    header := AppendFill(header, ' ', (descWidth + 1) / 2 - 6);
    header := header + "Description";
    header := AppendFill(header, ' ', descWidth / 2 - 6);
    header := header + " | Serial" + EOL;
    var rule := AppendFill("", '-', descWidth + 5 + 10);
    assert "" + Fill('-', descWidth + 5 + 10) == Fill('-', descWidth + 5 + 10);
    rule := rule + EOL;
    out := header + rule;
  }

  /** The body of the row loop: the line for device i, padded to `descWidth`. */
  method PrintRow(o: OrbtraceIf, i: nat, descWidth: int) returns (row: string)
    requires o.Valid()
    ensures row == Row(i, Entry(o.GetManufacturer(i), o.GetProduct(i), o.GetSN(i)), descWidth)
  {
    var m, p, s := o.GetManufacturer(i), o.GetProduct(i), o.GetSN(i);
    var thisWidth := |m| + |p| + 1;
    row := Ordinal(i + 1) + " | " + m + " " + p;
    row := AppendFill(row, ' ', descWidth - thisWidth);
    row := row + "| " + s + EOL;
  }

  /** The printing part of `_selectDevice`: header, rule and one row per device, for width `descWidth`. */
  method PrintTable(o: OrbtraceIf, ndevices: int, descWidth: int) returns (out: string)
    requires o.Valid()
    ensures out == Header(descWidth) + Rule(descWidth) + Rows(Listing(o, ndevices), descWidth)
  {
    var top := PrintHeader(descWidth);
    out := top;
    ghost var l := Listing(o, ndevices);
    var i := 0;
    while i < ndevices
      invariant 0 <= i <= Max(ndevices, 0)
      invariant out == top + Rows(l[..i], descWidth)
    {
      var row := PrintRow(o, i, descWidth);
      ListingAt(o, ndevices, i);
      TakeSnoc(l, i);
      RowsSnoc(l[..i], l[i], descWidth);
      Assoc(top, Rows(l[..i], descWidth), row);
      out := out + row;
      i := i + 1;
    }
    assert l[..i] == l;
  }

  /**
    The prompt loop of `_selectDevice`: it prompts and reads until a number
    in [1, ndevices] arrives. It returns that number and the count of
    prompts, or `None` when the inputs run out first.
  */
  method ReadSelection(ndevices: int, inputs: seq<int>) returns (selection: Option<int>, prompts: nat)
    ensures selection == Answer(inputs, ndevices) && prompts == PromptCount(inputs, ndevices)
  {
    var value := 0;
    var k := 0;
    prompts := 0;
    while value < 1 || value > ndevices
      invariant 0 <= k <= |inputs| && prompts == k
      invariant k == 0 ==> value == 0
      invariant k > 0 ==> value == inputs[k - 1]
      invariant FirstInRange(inputs, ndevices, 0) == (if 1 <= value <= ndevices then Some(k - 1) else FirstInRange(inputs, ndevices, k))
      decreases |inputs| - k, if 1 <= value <= ndevices then 0 else 1
    {
      prompts := prompts + 1;
      if k == |inputs| {
        return None, prompts;
      }
      value := inputs[k];
      k := k + 1;
    }
    selection := Some(value);
  }

  /**
    `_selectDevice` over the first `ndevices` records of `o`, with `inputs`
    the numbers scanf reads. It returns the selection and the text printed;
    `None` when the inputs run out before one is in range, where the source
    keeps prompting for ever.
  */
  method SelectDevice(o: OrbtraceIf, ndevices: int, listOnly: bool, inputs: seq<int>) returns (sel: Option<int>, out: string)
    requires o.Valid()
    ensures !listOnly && ndevices == 1 ==> sel == Some(0) && out == ""
    ensures listOnly ==> sel == Some(-1) && out == Table(Listing(o, ndevices))
    ensures !listOnly && ndevices != 1 ==> out == Table(Listing(o, ndevices)) + Prompts(PromptCount(inputs, ndevices))
    ensures !listOnly && ndevices != 1 ==> (sel.Some? <==> Answer(inputs, ndevices).Some?)
    ensures !listOnly && ndevices != 1 && sel.Some? ==> sel.value == Answer(inputs, ndevices).value - 1
    ensures sel.Some? && !listOnly ==> 0 <= sel.value < ndevices
  {
    if !listOnly && ndevices == 1 {
      return Some(ndevices - 1), "";
    }

    ghost var l := Listing(o, ndevices);
    var descWidth := WidestRow(o, ndevices);
    descWidth := descWidth + 1;
    assert descWidth == DescWidth(l);
    out := PrintTable(o, ndevices, descWidth);
    assert out == Table(l);

    if listOnly {
      return Some(-1), out;
    }
    var selection, prompts := ReadSelection(ndevices, inputs);
    out := out + Prompts(prompts);
    if selection.Some? {
      sel := Some(selection.value - 1);
    } else {
      sel := None;
    }
  }

  // ---------------------------------------------------------------------------
  // The program's global state
  // ---------------------------------------------------------------------------

  /** The program's global `options` record. */
  class Program {
    var options: Options

    constructor ()
      ensures options == DEFAULT_OPTIONS
    {
      options := DEFAULT_OPTIONS;
    }

    /**
      `_processOptions` over the option stream `args`, with `g` holding the
      report level that `-v` sets. It returns whether the options are usable.
    */
    method ProcessOptions(args: seq<Opt>, g: Generics.Context) returns (ok: bool)
      modifies this, g`lstore
      ensures var st := Parse(args, ParseState(old(options), old(g.lstore), false), |args|);
              options == st.opts && g.lstore == st.level &&
              (ok <==> !st.stopped && Sanity(st.opts, OrbtraceIf.ValidateVoltage) == Accepted)
    {
      ghost var st0 := ParseState(options, g.lstore, false);
      var i := 0;
      while i < |args|
        invariant i <= |args|
        invariant Parse(args, st0, i) == ParseState(options, g.lstore, false)
      {
        var a := args[i];
        var c := Getopt(a);
        if !IsHandled(c) {
          StoppedStays(args, st0, i + 1, |args|);
          return false;
        } else if c == 'v' {
          g.SetReportLevel(a.value);
        } else {
          options := SetOption(options, c, a);
        }
        i := i + 1;
      }

      if options.setCount != 0 {
        if options.resetParams {
          return false;
        }
        if options.listDevices {
          return false;
        }
      }
      if options.traceWidth != DONTSET && options.traceWidth != 1 && options.traceWidth != 2 && options.traceWidth == 4 {
        return false;
      }
      if CheckVoltages(options, OrbtraceIf.ValidateVoltage) != VoltagesOk {
        return false;
      }
      if options.brightness != DONTSET && (options.brightness < 0 || options.brightness > 255) {
        return false;
      }
      return true;
    }
  }

  /** Once the loop has stopped, the later options change nothing. */
  lemma {:induction false} StoppedStays(args: seq<Opt>, st0: ParseState, m: nat, n: nat)
    requires m <= n <= |args| && Parse(args, st0, m).stopped
    ensures Parse(args, st0, n) == Parse(args, st0, m)
    decreases n - m
  {
    if m < n {
      StoppedStays(args, st0, m, n - 1);
    }
  }
}
