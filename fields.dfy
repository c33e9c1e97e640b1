/** The fields of one progress-bar line and their widths: the option bits,
    the fixed field widths, the field renderers, the status-section width
    computed by `init_length`, and the line `generate_barcode` assembles.
    The renderers that need floating point (bar fill rounding, percentage,
    rate, one-decimal times) receive their floating-point results as
    inputs, collected in `Readings`. */
module Fields {
  import opened Strings

  /** Bits of `style::Type`, as masks of the option byte. */
  const BarBit: bv8 := 1
  const PerBit: bv8 := 2
  const CntBit: bv8 := 4
  const RateBit: bv8 := 8
  const TimerBit: bv8 := 16
  /** `style::entire`: every bit set. */
  const Entire: bv8 := 0xFF

  predicate Has(option: bv8, bit: bv8) {
    option & bit != 0
  }

  /** Two option bytes enable the same status fields (they may differ in
      the bar bit, as the renderer's per-frame controller does). */
  predicate SameStatusFields(a: bv8, b: bv8) {
    && Has(a, PerBit) == Has(b, PerBit)
    && Has(a, CntBit) == Has(b, CntBit)
    && Has(a, RateBit) == Has(b, RateBit)
    && Has(a, TimerBit) == Has(b, TimerBit)
  }

  /** `ratio_len`, `time_len`, `rate_len`: the widths of the widest texts. */
  const RatioLen: nat := |"100.00%"|
  const TimeLen: nat := |"9.9m < 9.9m"|
  const RateLen: nat := |"999.99 kHz"|
  /** `division`: the divider between two status fields. */
  const Division: string := " | "

  /** Terminal control codes: bold (`font_fmt`), cyan (the default status
      colour) and the reset code (`default_col`). */
  const Bold: string := "\U{1B}[1m"
  const Cyan: string := "\U{1B}[36m"
  const DefaultCol: string := "\U{1B}[0m"

  /** The display configuration of a bar: enabled fields, colours, glyphs,
      bracket strings and bar width. */
  datatype Style = Style(
    option: bv8,
    todoCol: string, doneCol: string, statusCol: string,
    todoCh: string, doneCh: string,
    startpoint: string, endpoint: string,
    lstatus: string, rstatus: string,
    barLength: nat)

  /** A piece of an output line: text that takes columns on the terminal,
      or a control code (colour, font) that takes none. */
  datatype Piece = Visible(text: string) | Control(code: string)

  /** The number of terminal columns a line takes, one per character of
      its visible text. Characters stand for bytes of one-byte (ASCII)
      text, so that `|s|` is the source's `size()`; the widths below hold
      for such text. */
  function Width(line: seq<Piece>): nat {
    if line == [] then 0 else Columns(line[0]) + Width(line[1..])
  }

  function Columns(p: Piece): nat {
    if p.Visible? then |p.text| else 0
  }

  lemma {:induction false} WidthAppend(a: seq<Piece>, b: seq<Piece>)
    ensures Width(a + b) == Width(a) + Width(b)
  {
    if a != [] {
      assert (a + b)[0] == a[0];
      assert (a + b)[1..] == a[1..] + b;
      WidthAppend(a[1..], b);
    } else {
      assert a + b == b;
    }
  }

  /** Width of the pieces from index `k` on, one piece at a time. */
  lemma WidthFrom(line: seq<Piece>, k: nat)
    requires k < |line|
    ensures Width(line[k..]) == Columns(line[k]) + Width(line[k + 1..])
  {
    assert line[k..][1..] == line[k + 1..];
  }

  /** The inputs of one frame that the source computes in floating point
      or from the clock: the number of filled bar cells
      (`round(bar_length * fraction)`), the tasks done, the percentage text
      with two decimals (without `%`), the rate text with its unit, and the
      elapsed and remaining whole seconds with their one-decimal minute or
      hour texts. */
  datatype Readings = Readings(
    doneLen: nat,
    numDone: nat,
    proportion: string,
    rate: string,
    elapsed: nat, elapsedOneDecimal: string,
    remaining: nat, remainingOneDecimal: string)

  /** `show_bar`: start token, filled cells in the done colour, empty cells
      in the todo colour, reset code, end token and one blank. */
  function ShowBar(st: Style, doneLen: nat): seq<Piece>
    requires doneLen <= st.barLength
  {
    [ Visible(st.startpoint),
      Control(st.doneCol), Visible(Repeat(doneLen, st.doneCh)),
      Control(st.todoCol), Visible(Repeat(st.barLength - doneLen, st.todoCh)),
      Control(DefaultCol), Visible(st.endpoint), Visible(" ") ]
  }

  /** The bar takes the columns of its cells plus the tokens and the
      blank; the reset and colour codes take none. */
  lemma ShowBarWidth(st: Style, doneLen: nat)
    requires doneLen <= st.barLength
    ensures Width(ShowBar(st, doneLen)) ==
            |st.startpoint| + |Repeat(doneLen, st.doneCh)| + |Repeat(st.barLength - doneLen, st.todoCh)|
            + |st.endpoint| + 1
  {
    WidthEight(Visible(st.startpoint),
               Control(st.doneCol), Visible(Repeat(doneLen, st.doneCh)),
               Control(st.todoCol), Visible(Repeat(st.barLength - doneLen, st.todoCh)),
               Control(DefaultCol), Visible(st.endpoint), Visible(" "));
  }

  /** The width of a line of eight pieces, piece by piece. */
  lemma WidthEight(p0: Piece, p1: Piece, p2: Piece, p3: Piece, p4: Piece, p5: Piece, p6: Piece, p7: Piece)
    ensures Width([p0, p1, p2, p3, p4, p5, p6, p7]) ==
            Columns(p0) + Columns(p1) + Columns(p2) + Columns(p3)
            + Columns(p4) + Columns(p5) + Columns(p6) + Columns(p7)
  {
    var line := [p0, p1, p2, p3, p4, p5, p6, p7];
    assert line[8..] == [];
    WidthFrom(line, 7);
    WidthFrom(line, 6);
    WidthFrom(line, 5);
    WidthFrom(line, 4);
    WidthFrom(line, 3);
    WidthFrom(line, 2);
    WidthFrom(line, 1);
    WidthFrom(line, 0);
    assert line[0..] == line;
  }

  /** With one-column glyphs the bar is `bar_length` columns wide plus the
      tokens and the blank, whatever the fill. */
  lemma ShowBarWidthOneColumn(st: Style, doneLen: nat)
    requires doneLen <= st.barLength
    requires |st.doneCh| == 1 && |st.todoCh| == 1
    ensures Width(ShowBar(st, doneLen)) == st.barLength + |st.startpoint| + |st.endpoint| + 1
  {
    ShowBarWidth(st, doneLen);
    assert |Repeat(doneLen, st.doneCh)| == doneLen * 1;
    assert |Repeat(st.barLength - doneLen, st.todoCh)| == (st.barLength - doneLen) * 1;
  }

  /** `show_percentage`: before the first update the placeholder "0.00%"
      left-aligned, afterwards the percentage text and `%` right-aligned,
      both in `RatioLen` columns when the text fits. */
  function ShowPercentage(updated: bool, proportion: string): (r: string)
    ensures !updated ==> r == "0.00%  "
    ensures updated && |proportion| < RatioLen ==>
              |r| == RatioLen && r[RatioLen - |proportion| - 1..] == proportion + "%"
  {
    if !updated then
      assert Format(AlignLeft, RatioLen, "0.00%") == "0.00%" + Fill(2, ' ');
      assert Fill(2, ' ') == "  ";
      Format(AlignLeft, RatioLen, "0.00%")
    else Format(AlignRight, RatioLen, proportion + "%")
  }

  /** `show_task_counter`: the tasks done, right-aligned to the width of
      the total, a slash, and the total. */
  function ShowTaskCounter(numDone: nat, tasks: nat): string {
    var total := DecimalString(tasks);
    Format(AlignRight, |total|, DecimalString(numDone)) + "/" + total
  }

  /** The counter's width as `init_length` computes it from `log10`: twice
      the number of digits of the tasks, plus the slash. */
  function CntLength(tasks: nat): nat {
    NumDigits(tasks) * 2 + 1
  }

  /** With at most as many tasks done as there are tasks, the counter is
      exactly `CntLength(tasks)` wide: the done count right-aligned under
      the width of the total, the slash, then the total. */
  lemma TaskCounterLayout(numDone: nat, tasks: nat)
    requires numDone <= tasks
    ensures var r := ShowTaskCounter(numDone, tasks);
            var w := NumDigits(tasks);
            && |r| == CntLength(tasks)
            && r[..w] == Fill(w - NumDigits(numDone), ' ') + DecimalString(numDone)
            && r[w] == '/'
            && r[w + 1..] == DecimalString(tasks)
  {
    NumDigitsMonotone(numDone, tasks);
    var w := NumDigits(tasks);
    var done := DecimalString(numDone);
    var padded := Format(AlignRight, w, done);
    var r := ShowTaskCounter(numDone, tasks);
    assert r == padded + "/" + DecimalString(tasks);
    if |done| < w {
      assert padded == Fill(w - |done|, ' ') + done;
    } else {
      assert padded == done;
      assert Fill(0, ' ') == [];
    }
    assert r[..w] == padded;
  }

  /** `show_rate`: before the first update the placeholder "0.00 Hz",
      afterwards the rate text, centred in `RateLen` columns. */
  function ShowRate(updated: bool, rate: string): (r: string)
    ensures !updated ==> r == "  0.00 Hz "
    ensures updated && |rate| <= RateLen ==> |r| == RateLen
  {
    if !updated then
      assert Format(AlignCenter, RateLen, "0.00 Hz") == Fill(2, ' ') + "0.00 Hz" + Fill(1, ' ');
      assert Fill(2, ' ') == "  " && Fill(1, ' ') == " ";
      Format(AlignCenter, RateLen, "0.00 Hz")
    else Format(AlignCenter, RateLen, rate)
  }

  /** The `to_time` lambda of `show_countdown`: whole seconds below a
      minute, one-decimal minutes below nine minutes, whole minutes below
      an hour, one-decimal hours below nine hours, then whole hours capped
      at 99. The one-decimal texts are computed in floating point by the
      source and are given here as `oneDecimal`. */
  function ToTime(sec: nat, oneDecimal: string): string {
    if sec < 60 then DecimalString(sec) + "s"
    else if sec < 60 * 9 then oneDecimal + "m"
    else if sec < 60 * 60 then DecimalString(sec / 60) + "m"
    else if sec < 60 * 60 * 9 then oneDecimal + "h"
    else if sec > 60 * 60 * 99 then "99h"
    else DecimalString(sec / (60 * 60)) + "h"
  }

  function Min(a: nat, b: nat): nat {
    if a <= b then a else b
  }

  /** The whole-number units of `to_time`: seconds, minutes from nine
      minutes on, and hours from nine hours on, where the hours never
      exceed 99. */
  lemma ToTimeUnits(sec: nat, oneDecimal: string)
    ensures sec < 60 ==> ToTime(sec, oneDecimal) == DecimalString(sec) + "s"
    ensures 540 <= sec < 3600 ==> ToTime(sec, oneDecimal) == DecimalString(sec / 60) + "m"
    ensures sec >= 32400 ==>
              && ToTime(sec, oneDecimal) == DecimalString(Min(sec, 356400) / 3600) + "h"
              && 9 <= Min(sec, 356400) / 3600 <= 99
  {
    if sec > 356400 {
      assert DecimalString(99) == DecimalString(9) + [DigitChar(9)];
    }
  }

  /** A count below 100 has at most two digits. */
  lemma TwoDigits(n: nat)
    requires n < 100
    ensures NumDigits(n) <= 2
  {
    if n >= 10 {
      assert NumDigits(n) == 1 + NumDigits(n / 10);
    }
  }

  /** Every `to_time` text takes at most four columns when the one-decimal
      texts take at most three ("9.9"); the whole-number texts take at
      most three. */
  lemma ToTimeWidth(sec: nat, oneDecimal: string)
    ensures |oneDecimal| <= 3 ==> |ToTime(sec, oneDecimal)| <= 4
    ensures !(60 <= sec < 540) && !(3600 <= sec < 32400) ==> |ToTime(sec, oneDecimal)| <= 3
  {
    if sec < 60 {
      TwoDigits(sec);
    } else if 540 <= sec < 3600 {
      TwoDigits(sec / 60);
    } else if 32400 <= sec <= 356400 {
      TwoDigits(sec / 3600);
    }
  }

  /** `show_countdown`: before the first update the placeholder
      "0s < 99h", afterwards elapsed and remaining time, centred in
      `TimeLen` columns. */
  function ShowCountdown(updated: bool, rd: Readings): (r: string)
    ensures !updated ==> r == "  0s < 99h "
    ensures |rd.elapsedOneDecimal| <= 3 && |rd.remainingOneDecimal| <= 3 ==> |r| == TimeLen
  {
    if !updated then
      assert Format(AlignCenter, TimeLen, "0s < 99h") == Fill(2, ' ') + "0s < 99h" + Fill(1, ' ');
      assert Fill(2, ' ') == "  " && Fill(1, ' ') == " ";
      Format(AlignCenter, TimeLen, "0s < 99h")
    else
      ToTimeWidth(rd.elapsed, rd.elapsedOneDecimal);
      ToTimeWidth(rd.remaining, rd.remainingOneDecimal);
      Format(AlignCenter, TimeLen,
             ToTime(rd.elapsed, rd.elapsedOneDecimal) + " < " + ToTime(rd.remaining, rd.remainingOneDecimal))
  }

  /** The number of status fields enabled. */
  function StatusCount(option: bv8): (k: nat)
    ensures k <= 4
  {
    (if Has(option, PerBit) then 1 else 0) + (if Has(option, CntBit) then 1 else 0)
    + (if Has(option, RateBit) then 1 else 0) + (if Has(option, TimerBit) then 1 else 0)
  }

  /** `status_length_` as `init_length` computes it: the widths of the
      enabled status fields, plus the two brackets and a divider between
      each two fields when any field is enabled, and zero otherwise. */
  function StatusLength(option: bv8, cntLength: nat, lstatus: string, rstatus: string): nat {
    var fields := (if Has(option, PerBit) then RatioLen else 0)
                + (if Has(option, CntBit) then cntLength else 0)
                + (if Has(option, RateBit) then RateLen else 0)
                + (if Has(option, TimerBit) then TimeLen else 0);
    if fields == 0 then 0
    else
      var k := StatusCount(option);
      fields + |lstatus| + |rstatus| + (if k > 1 then (k - 1) * |Division| else 0)
  }

  /** With a non-zero counter width, the status section has width zero
      exactly when no status field is enabled. */
  lemma StatusLengthZeroIff(option: bv8, cntLength: nat, lstatus: string, rstatus: string)
    requires cntLength > 0
    ensures StatusLength(option, cntLength, lstatus, rstatus) == 0 <==> StatusCount(option) == 0
  {
  }

  /** The texts of the enabled status fields, in the order percentage,
      task counter, rate, countdown. */
  function StatusTexts(ctrller: bv8, updated: bool, tasks: nat, rd: Readings): (xs: seq<string>)
    ensures |xs| == StatusCount(ctrller)
  {
    (if Has(ctrller, PerBit) then [ShowPercentage(updated, rd.proportion)] else [])
    + (if Has(ctrller, CntBit) then [ShowTaskCounter(rd.numDone, tasks)] else [])
    + (if Has(ctrller, RateBit) then [ShowRate(updated, rd.rate)] else [])
    + (if Has(ctrller, TimerBit) then [ShowCountdown(updated, rd)] else [])
  }

  /** Fields joined by the divider: each field but the last is followed by
      `Division`. */
  function Joined(xs: seq<string>): seq<Piece> {
    if |xs| == 0 then []
    else if |xs| == 1 then [Visible(xs[0])]
    else [Visible(xs[0] + Division)] + Joined(xs[1..])
  }

  /** At most one status field, followed by the divider when more fields
      come after it. */
  function Lead(x: seq<string>, rest: seq<string>): seq<Piece>
    requires |x| <= 1
  {
    if x == [] then [] else [Visible(if rest == [] then x[0] else x[0] + Division)]
  }

  /** Joining a field in front: it carries the divider exactly when other
      fields follow. */
  lemma JoinedCons(x: seq<string>, ys: seq<string>)
    requires |x| <= 1
    ensures Joined(x + ys) == Lead(x, ys) + Joined(ys)
  {
    if x == [] {
      assert x + ys == ys;
    } else if ys == [] {
      assert x + ys == x;
    } else {
      assert (x + ys)[1..] == ys;
    }
  }

  /** The four optional status fields joined: each enabled field carries a
      divider exactly when a later field is enabled. */
  lemma JoinedFour(p: seq<string>, c: seq<string>, r: seq<string>, t: seq<string>)
    requires |p| <= 1 && |c| <= 1 && |r| <= 1 && |t| <= 1
    ensures Joined(p + c + r + t) == Lead(p, c + r + t) + Lead(c, r + t) + Lead(r, t) + Lead(t, [])
  {
    JoinedNested(p, c, r, t);
    Regroup(p, c, r, t);
    Regroup(Lead(p, c + r + t), Lead(c, r + t), Lead(r, t), Lead(t, []));
  }

  /** Concatenation of four sequences, grouped from the right. */
  lemma Regroup<T>(a: seq<T>, b: seq<T>, c: seq<T>, d: seq<T>)
    ensures a + b + c + d == a + (b + (c + d))
    ensures b + c + d == b + (c + d)
  {
  }

  lemma JoinedNested(p: seq<string>, c: seq<string>, r: seq<string>, t: seq<string>)
    requires |p| <= 1 && |c| <= 1 && |r| <= 1 && |t| <= 1
    ensures Joined(p + (c + (r + t))) == Lead(p, c + (r + t)) + (Lead(c, r + t) + (Lead(r, t) + Lead(t, [])))
  {
    JoinedCons(t, []);
    assert t + [] == t;
    JoinedCons(r, t);
    JoinedCons(c, r + t);
    JoinedCons(p, c + (r + t));
  }

  function SumLengths(xs: seq<string>): nat {
    if xs == [] then 0 else |xs[0]| + SumLengths(xs[1..])
  }

  /** Joining adds one divider between each two fields. */
  lemma {:induction false} JoinedWidth(xs: seq<string>)
    ensures Width(Joined(xs)) == SumLengths(xs) + (if |xs| > 1 then (|xs| - 1) * |Division| else 0)
  {
    if |xs| > 1 {
      JoinedWidth(xs[1..]);
      WidthAppend([Visible(xs[0] + Division)], Joined(xs[1..]));
    } else if |xs| == 1 {
      assert xs[1..] == [];
    }
  }

  /** The line `generate_barcode` assembles: the bar when its bit is set,
      then the status section. */
  function Barcode(st: Style, statusLength: nat, ctrller: bv8, updated: bool, tasks: nat, rd: Readings): seq<Piece>
    requires rd.doneLen <= st.barLength
  {
    (if Has(ctrller, BarBit) then ShowBar(st, rd.doneLen) else [])
    + StatusSection(st, statusLength, ctrller, updated, tasks, rd)
  }

  /** The status section: when its width is not zero, the bold code, the
      status colour and the left bracket, the enabled status fields joined
      by dividers, and, again only when its width is not zero, the right
      bracket and the reset code. */
  function StatusSection(st: Style, statusLength: nat, ctrller: bv8, updated: bool, tasks: nat, rd: Readings): seq<Piece> {
    (if statusLength != 0 then [Control(Bold), Control(st.statusCol), Visible(st.lstatus)] else [])
    + Joined(StatusTexts(ctrller, updated, tasks, rd))
    + (if statusLength != 0 then [Visible(st.rstatus), Control(DefaultCol)] else [])
  }

  /** `total_length` in `generate_barcode`: the bar's columns when its bit
      is set, plus the status section's width. */
  function EraseLength(st: Style, statusLength: nat, ctrller: bv8): nat {
    (if Has(ctrller, BarBit) then st.barLength + |st.startpoint| + |st.endpoint| + 1 else 0) + statusLength
  }

  /** A frame whose floating-point texts have the widths the fixed field
      widths were chosen for. */
  predicate Fits(tasks: nat, rd: Readings) {
    && rd.numDone <= tasks
    && |rd.proportion| < RatioLen
    && |rd.rate| <= RateLen
    && |rd.elapsedOneDecimal| <= 3 && |rd.remainingOneDecimal| <= 3
  }

  /** The enabled status fields take their fixed widths plus the dividers. */
  lemma {:induction false} StatusTextsWidth(ctrller: bv8, updated: bool, tasks: nat, rd: Readings)
    requires Fits(tasks, rd)
    ensures var xs := StatusTexts(ctrller, updated, tasks, rd);
            SumLengths(xs) ==
              (if Has(ctrller, PerBit) then RatioLen else 0)
              + (if Has(ctrller, CntBit) then CntLength(tasks) else 0)
              + (if Has(ctrller, RateBit) then RateLen else 0)
              + (if Has(ctrller, TimerBit) then TimeLen else 0)
  {
    TaskCounterLayout(rd.numDone, tasks);
    var p := if Has(ctrller, PerBit) then [ShowPercentage(updated, rd.proportion)] else [];
    var c := if Has(ctrller, CntBit) then [ShowTaskCounter(rd.numDone, tasks)] else [];
    var r := if Has(ctrller, RateBit) then [ShowRate(updated, rd.rate)] else [];
    var t := if Has(ctrller, TimerBit) then [ShowCountdown(updated, rd)] else [];
    SumLengthsFour(p, c, r, t);
    SumLengthsOne(p);
    SumLengthsOne(c);
    SumLengthsOne(r);
    SumLengthsOne(t);
  }

  lemma SumLengthsFour(p: seq<string>, c: seq<string>, r: seq<string>, t: seq<string>)
    ensures SumLengths(p + c + r + t) == SumLengths(p) + SumLengths(c) + SumLengths(r) + SumLengths(t)
  {
    SumLengthsAppend(p, c);
    SumLengthsAppend(p + c, r);
    SumLengthsAppend(p + c + r, t);
  }

  lemma SumLengthsOne(x: seq<string>)
    requires |x| <= 1
    ensures SumLengths(x) == if x == [] then 0 else |x[0]|
  {
    if x != [] {
      assert x[1..] == [];
    }
  }

  lemma {:induction false} SumLengthsAppend(a: seq<string>, b: seq<string>)
    ensures SumLengths(a + b) == SumLengths(a) + SumLengths(b)
  {
    if a != [] {
      assert (a + b)[0] == a[0];
      assert (a + b)[1..] == a[1..] + b;
      SumLengthsAppend(a[1..], b);
    } else {
      assert a + b == b;
    }
  }

  /** Option bytes that enable the same status fields count the same
      number of them. */
  lemma SameStatusCount(a: bv8, b: bv8)
    requires SameStatusFields(a, b)
    ensures StatusCount(a) == StatusCount(b)
  {
  }

  /** The status section takes exactly the width `init_length` computed for
      the same enabled status fields, when the field texts have their
      intended widths. */
  lemma StatusSectionWidth(st: Style, ctrller: bv8, updated: bool, tasks: nat, rd: Readings)
    requires SameStatusFields(ctrller, st.option)
    requires Fits(tasks, rd)
    ensures var statusLength := StatusLength(st.option, CntLength(tasks), st.lstatus, st.rstatus);
            Width(StatusSection(st, statusLength, ctrller, updated, tasks, rd)) == statusLength
  {
    var statusLength := StatusLength(st.option, CntLength(tasks), st.lstatus, st.rstatus);
    var open := if statusLength != 0 then [Control(Bold), Control(st.statusCol), Visible(st.lstatus)] else [];
    var xs := StatusTexts(ctrller, updated, tasks, rd);
    var close := if statusLength != 0 then [Visible(st.rstatus), Control(DefaultCol)] else [];
    SameStatusCount(ctrller, st.option);
    StatusLengthZeroIff(st.option, CntLength(tasks), st.lstatus, st.rstatus);
    StatusTextsWidth(ctrller, updated, tasks, rd);
    JoinedWidth(xs);
    WidthAppend(open, Joined(xs));
    WidthAppend(open + Joined(xs), close);
    if statusLength != 0 {
      assert Width(open) == |st.lstatus| by {
        assert open[3..] == [];
        WidthFrom(open, 2);
        WidthFrom(open, 1);
        WidthFrom(open, 0);
        assert open[0..] == open;
      }
      assert Width(close) == |st.rstatus| by {
        assert close[2..] == [];
        WidthFrom(close, 1);
        WidthFrom(close, 0);
        assert close[0..] == close;
      }
    } else {
      assert xs == [];
    }
  }

  /** The erase prefix covers the frame exactly: for a status width that
      `init_length` computed from the same enabled status fields, one-column
      glyphs and field texts of the intended widths, the line
      `generate_barcode` assembles takes exactly `total_length` columns. */
  lemma BarcodeWidth(st: Style, ctrller: bv8, updated: bool, tasks: nat, rd: Readings)
    requires SameStatusFields(ctrller, st.option)
    requires |st.doneCh| == 1 && |st.todoCh| == 1
    requires rd.doneLen <= st.barLength
    requires Fits(tasks, rd)
    ensures var statusLength := StatusLength(st.option, CntLength(tasks), st.lstatus, st.rstatus);
            Width(Barcode(st, statusLength, ctrller, updated, tasks, rd)) == EraseLength(st, statusLength, ctrller)
  {
    var statusLength := StatusLength(st.option, CntLength(tasks), st.lstatus, st.rstatus);
    var bar := if Has(ctrller, BarBit) then ShowBar(st, rd.doneLen) else [];
    ShowBarWidthOneColumn(st, rd.doneLen);
    StatusSectionWidth(st, ctrller, updated, tasks, rd);
    WidthAppend(bar, StatusSection(st, statusLength, ctrller, updated, tasks, rd));
  }
}
