/** The progress bar (`pgbar` with the `singlethread` renderer): its
    configuration, its task counter, its renderer and the `update_flag_`
    that the render routine raises on its first run. The stream writes of
    the render routine are not modelled; its one effect on the bar's
    state, raising `update_flag_`, is. */
module Bar {
  import opened Strings
  import opened Fields
  import opened Counting
  import opened Renderer

  /** The three conditions the source reports with `bad_pgbar`. */
  datatype BarError = FullBar | ZeroTasks | ZeroStep

  /** Whether an operation went through or was refused with an error. */
  datatype Outcome = Pass | Fail(error: BarError)

  /** What one update does to the counter: `update()` is one `operator++`,
      `update(next_step)` is `operator+=(next_step)`. */
  datatype Increment = StepOnce | Advance(k: nat)

  function Apply(inc: Increment, c: Count): (r: Count)
    ensures r.tasks == c.tasks && r.step == c.step
  {
    match inc
    case StepOnce => Incremented(c)
    case Advance(k) => Advanced(c, k)
  }

  /** The configuration a new bar starts with: every field enabled, no
      colour on the cells, cyan status, blank and dash cells, square
      brackets, 30 cells. */
  const DefaultStyle: Style :=
    Style(Entire, "", "", Cyan, " ", "-", "[", "]", "[ ", " ]", 30)

  /** The whole state of a bar, as a value. */
  datatype BarState = BarState(
    updated: bool,
    style: Style,
    count: Count,
    cntLength: nat,
    statusLength: nat,
    sync: Sync)

  /** `is_done`: started, and the counter has ended. */
  predicate Done(b: BarState) {
    b.updated && Ended(b.count)
  }

  /** The invariant every bar keeps:
      - the counter width and the status width are those `init_length`
        computes from the current configuration;
      - before the first update nothing has been counted, and a started
        bar has tasks;
      - the count stays within the tasks, except that the first step of a
        bar whose step exceeds its tasks lands on the step, and that bar
        has then ended;
      - the renderer runs exactly while the bar is started and not ended. */
  ghost predicate ValidState(b: BarState) {
    && b.cntLength == CntLength(b.count.tasks)
    && b.statusLength == StatusLength(b.style.option, b.cntLength, b.style.lstatus, b.style.rstatus)
    && (!b.updated ==> b.count.current == 0)
    && (b.updated ==> b.count.tasks > 0)
    && (b.count.current <= b.count.tasks
        || (b.updated && b.count.current == b.count.step && Ended(b.count)))
    && (b.sync.active <==> b.updated && !Ended(b.count))
  }

  /** The checks of `do_update`, in order: a done bar, then zero tasks. */
  function UpdateOutcome(b: BarState): (o: Outcome)
    ensures o == Pass <==> !Done(b) && b.count.tasks > 0
    ensures o == Fail(FullBar) <==> Done(b)
  {
    if Done(b) then Fail(FullBar)
    else if b.count.tasks == 0 then Fail(ZeroTasks)
    else Pass
  }

  /** The two readings of the system clock one update can take: the one
      `active()` takes when it starts the renderer, and the later one
      `render()` takes. */
  datatype ClockReads = ClockReads(atActive: int, atRender: int)

  /** The state after an accepted update with clock readings `now`:
      `active()` if not started, the increment, `render()`, and `suspend()`
      once the counter has ended. Every run of the render task raises
      `update_flag_`. */
  function AfterUpdate(b: BarState, inc: Increment, now: ClockReads): BarState {
    var started := if b.updated then Step(b.sync, false) else Activated(b.sync, now.atActive);
    var count := Apply(inc, b.count);
    var rendered := Rendered(started.next, now.atRender);
    var finished := if Ended(count) then Suspended(rendered.next) else Step(rendered.next, false);
    b.(updated := b.updated || started.ran || rendered.ran || finished.ran,
       count := count,
       sync := finished.next)
  }

  /** `update`: either refused with the state unchanged, or accepted. */
  function Updated(b: BarState, inc: Increment, now: ClockReads): BarState {
    if UpdateOutcome(b) == Pass then AfterUpdate(b, inc, now) else b
  }

  /** An accepted update keeps the invariant, starts the bar, changes the
      counter only by the increment, leaves the configuration alone, and
      leaves the renderer running exactly when the counter has not ended;
      a refused one changes nothing. */
  lemma UpdateKeepsValid(b: BarState, inc: Increment, now: ClockReads)
    requires ValidState(b)
    ensures ValidState(Updated(b, inc, now))
    ensures UpdateOutcome(b) == Pass ==>
              var a := Updated(b, inc, now);
              && a.updated
              && a.count == Apply(inc, b.count)
              && a.style == b.style && a.cntLength == b.cntLength && a.statusLength == b.statusLength
              && (a.sync.active <==> !Ended(a.count))
    ensures UpdateOutcome(b) != Pass ==> Updated(b, inc, now) == b
  {
    if UpdateOutcome(b) == Pass {
      var c := Apply(inc, b.count);
      if b.updated {
        assert b.count.current <= b.count.tasks;
        if inc.StepOnce? {
          IncrementWithinTasks(b.count);
        }
      } else {
        assert b.count.current == 0;
      }
      assert c.current <= c.tasks || (c.current == c.step && Ended(c));
    }
  }

  /** From a count within the tasks, the count never passes the tasks on
      an update of a started bar, on an update by an explicit amount, or on
      a first update whose step fits in the tasks. */
  lemma UpdateWithinTasks(b: BarState, inc: Increment, now: ClockReads)
    requires ValidState(b) && b.count.current <= b.count.tasks
    requires b.updated || inc.Advance? || b.count.step <= b.count.tasks
    ensures Updated(b, inc, now).count.current <= b.count.tasks
  {
    if UpdateOutcome(b) == Pass && inc.StepOnce? {
      if !b.updated {
        assert !Ended(b.count);
      }
      IncrementWithinTasks(b.count);
    }
  }

  /** The only way past the tasks: a first `update()` of a bar whose step
      exceeds its tasks lands on the step and finishes the bar at once. */
  lemma FirstStepOvershoot(b: BarState, now: ClockReads)
    requires ValidState(b) && !b.updated
    requires b.count.tasks > 0 && b.count.step > b.count.tasks
    ensures Updated(b, StepOnce, now).count.current == b.count.step
    ensures Done(Updated(b, StepOnce, now))
    ensures !Updated(b, StepOnce, now).sync.active
  {
  }

  /** Once an update ends the counter the bar is done and every further
      update is refused as updating a full bar. */
  lemma EndedBarRefuses(b: BarState, inc: Increment, now: ClockReads)
    requires ValidState(b) && UpdateOutcome(b) == Pass
    requires Ended(Apply(inc, b.count))
    ensures Done(Updated(b, inc, now))
    ensures UpdateOutcome(Updated(b, inc, now)) == Fail(FullBar)
  {
    UpdateKeepsValid(b, inc, now);
  }

  /** The first update activates the renderer at its first clock reading
      and renders again at its second when that comes at least
      `ReflashRate` later; the renderer keeps the stamp of the last run. */
  lemma FirstUpdateStamp(b: BarState, inc: Increment, now: ClockReads)
    requires ValidState(b) && !b.updated && b.count.tasks > 0
    ensures Updated(b, inc, now).updated
    ensures Updated(b, inc, now).sync.lastInvoke ==
              if now.atRender - now.atActive >= ReflashRate then now.atRender else now.atActive
  {
    assert UpdateOutcome(b) == Pass;
    assert !b.sync.active;
  }

  /** A sequence of `update()` calls with the given clock readings. */
  function UpdateRun(b: BarState, times: seq<ClockReads>): BarState
    decreases |times|
  {
    if times == [] then b
    else Updated(UpdateRun(b, times[..|times| - 1]), StepOnce, times[|times| - 1])
  }

  /** From a bar not yet started with `tasks >= step >= 1`, the first
      `tasks / step` calls of `update()` are all accepted and each adds one
      step; the bar is done after exactly `tasks / step` of them, and the
      next one is refused as updating a full bar. */
  lemma {:induction false} UpdatesToEnd(b: BarState, times: seq<ClockReads>)
    requires ValidState(b) && !b.updated
    requires b.count.step >= 1 && b.count.step <= b.count.tasks
    requires |times| <= b.count.tasks / b.count.step
    ensures ValidState(UpdateRun(b, times))
    ensures UpdateRun(b, times).count == Iterated(b.count, |times|)
    ensures |times| > 0 ==> UpdateRun(b, times).updated
    ensures Done(UpdateRun(b, times)) <==> |times| == b.count.tasks / b.count.step
    ensures |times| == b.count.tasks / b.count.step ==>
              UpdateOutcome(UpdateRun(b, times)) == Fail(FullBar)
  {
    var tasks, step := b.count.tasks, b.count.step;
    assert b.count == Count(tasks, step, 0);
    if times == [] {
      EndsAfterQuotientSteps(tasks, step, 0);
      assert tasks / step >= 1;
    } else {
      var n := |times| - 1;
      var prev := UpdateRun(b, times[..n]);
      UpdatesToEnd(b, times[..n]);
      EndsAfterQuotientSteps(tasks, step, n);
      EndsAfterQuotientSteps(tasks, step, n + 1);
      assert !Ended(prev.count);
      assert UpdateOutcome(prev) == Pass;
      UpdateKeepsValid(prev, StepOnce, times[n]);
      assert UpdateRun(b, times) == Updated(prev, StepOnce, times[n]);
    }
  }

  /** `reset`: a started bar goes back to zero progress, suspends the
      renderer and clears `update_flag_`; a bar not started is left alone. */
  function AfterReset(b: BarState): BarState {
    if !b.updated then b
    else b.(updated := false, count := b.count.(current := 0), sync := Suspended(b.sync).next)
  }

  /** Reset keeps the invariant and the configuration, the tasks and the
      step; a started bar can be updated again afterwards. */
  lemma ResetRearms(b: BarState)
    requires ValidState(b)
    ensures ValidState(AfterReset(b))
    ensures !AfterReset(b).updated && AfterReset(b).count.current == 0
    ensures AfterReset(b).count.tasks == b.count.tasks && AfterReset(b).count.step == b.count.step
    ensures AfterReset(b).style == b.style
    ensures b.updated ==> UpdateOutcome(AfterReset(b)) == Pass
  {
  }

  /** For a valid started bar, one-column glyphs and field texts of their
      intended widths, the erase prefix is exactly as long as the line is
      wide. */
  lemma EraseCoversLine(b: BarState, ctrller: bv8, rd: Readings)
    requires ValidState(b) && SameStatusFields(ctrller, b.style.option)
    requires |b.style.doneCh| == 1 && |b.style.todoCh| == 1
    requires rd.doneLen <= b.style.barLength && Fits(b.count.tasks, rd)
    ensures Width(Barcode(b.style, b.statusLength, ctrller, b.updated, b.count.tasks, rd))
            == EraseLength(b.style, b.statusLength, ctrller)
  {
    BarcodeWidth(b.style, ctrller, b.updated, b.count.tasks, rd);
  }

  /** `pgbar` with the `singlethread` renderer. The configuration fields
      (`option_`, the colours, the glyphs, the brackets and `bar_length_`)
      are held together as one `Style` value; the counter and the renderer
      are members the bar owns. */
  class ProgressBar {
    var updated: bool
    var style: Style
    var cntLength: nat
    var statusLength: nat
    const counter: Counter
    const renderer: SingleThread

    function Snapshot(): BarState
      reads this, counter, renderer
    {
      BarState(updated, style, counter.Value(), cntLength, statusLength, renderer.State())
    }

    ghost predicate Valid()
      reads this, counter, renderer
    {
      ValidState(Snapshot())
    }

    /** `is_updated`. */
    function IsUpdated(): bool
      reads this
    {
      updated
    }

    /** `is_done`. */
    function IsDone(): (r: bool)
      reads this, counter
      ensures r <==> updated && (counter.current >= counter.tasks || counter.current + counter.step > counter.tasks)
    {
      updated && counter.IsEnded()
    }

    /** `pgbar(total_tasks, each_step)`: the default configuration, a
        counter at zero, an inactive renderer, and the lengths from
        `init_length`. The one- and zero-argument constructors pass step 1,
        and tasks 0 and step 1. */
    constructor (tasks: nat, step: nat)
      ensures fresh(counter) && fresh(renderer)
      ensures Snapshot() == BarState(false, DefaultStyle, Count(tasks, step, 0), CntLength(tasks),
                                     StatusLength(Entire, CntLength(tasks), "[ ", " ]"), Sync(false, 0))
      ensures Valid()
    {
      updated := false;
      style := DefaultStyle;
      cntLength := 1;
      statusLength := 0;
      counter := new Counter(tasks, step);
      renderer := new SingleThread();
      new;
      InitLength(true);
    }

    /** `init_length`: recompute the counter width when asked, then the
        status width from the enabled fields. */
    method InitLength(updateCnt: bool)
      modifies this
      ensures cntLength == if updateCnt then CntLength(counter.tasks) else old(cntLength)
      ensures statusLength == StatusLength(style.option, cntLength, style.lstatus, style.rstatus)
      ensures updated == old(updated) && style == old(style)
    {
      if updateCnt {
        cntLength := NumDigits(counter.tasks) * 2 + 1;
      }
      var option := style.option;
      var len := 0;
      if Has(option, PerBit) { len := len + RatioLen; }
      if Has(option, CntBit) { len := len + cntLength; }
      if Has(option, RateBit) { len := len + RateLen; }
      if Has(option, TimerBit) { len := len + TimeLen; }
      if len != 0 {
        len := len + |style.lstatus| + |style.rstatus|;
        var statusNum := StatusCount(option);
        len := len + if statusNum > 1 then (statusNum - 1) * |Division| else 0;
      }
      statusLength := len;
    }

    /** The render routine's effect on the bar: its first run raises
        `update_flag_`. */
    method Rendering()
      modifies this
      ensures Snapshot() == old(Snapshot()).(updated := true)
    {
      if !updated {
        updated := true;
      }
    }

    /** `do_update`: refuse a done bar, then a bar without tasks; activate
        the renderer on the first update; apply the increment; render; and
        suspend the renderer once the counter has ended. */
    method DoUpdate(inc: Increment, now: ClockReads) returns (outcome: Outcome)
      requires Valid()
      modifies this, counter, renderer
      ensures Valid()
      ensures outcome == UpdateOutcome(old(Snapshot()))
      ensures Snapshot() == Updated(old(Snapshot()), inc, now)
    {
      ghost var b := Snapshot();
      UpdateKeepsValid(b, inc, now);
      if IsDone() {
        return Fail(FullBar);
      }
      if counter.tasks == 0 {
        return Fail(ZeroTasks);
      }
      var ran;
      if !updated {
        ran := renderer.Active(now.atActive);
        if ran {
          Rendering();
        }
      }
      match inc {
        case StepOnce => counter.Increment();
        case Advance(k) => counter.Advance(k);
      }
      ran := renderer.Render(now.atRender);
      if ran {
        Rendering();
      }
      if counter.IsEnded() {
        ran := renderer.Suspend();
        if ran {
          Rendering();
        }
      }
      outcome := Pass;
    }

    /** `update()`. */
    method Update(now: ClockReads) returns (outcome: Outcome)
      requires Valid()
      modifies this, counter, renderer
      ensures Valid()
      ensures outcome == UpdateOutcome(old(Snapshot()))
      ensures Snapshot() == Updated(old(Snapshot()), StepOnce, now)
    {
      outcome := DoUpdate(StepOnce, now);
    }

    /** `update(next_step)`. */
    method UpdateBy(k: nat, now: ClockReads) returns (outcome: Outcome)
      requires Valid()
      modifies this, counter, renderer
      ensures Valid()
      ensures outcome == UpdateOutcome(old(Snapshot()))
      ensures Snapshot() == Updated(old(Snapshot()), Advance(k), now)
    {
      outcome := DoUpdate(Advance(k), now);
    }

    /** `reset`. */
    method Reset()
      requires Valid()
      modifies this, counter, renderer
      ensures Valid()
      ensures Snapshot() == AfterReset(old(Snapshot()))
    {
      ResetRearms(Snapshot());
      if !updated {
        return;
      }
      counter.SetCurrent(0);
      var ran := renderer.Suspend();
      if ran {
        Rendering();
      }
      updated := false;
    }

    /** `set_step`: ignored once started, refused when zero. */
    method SetStep(step: nat) returns (outcome: Outcome)
      requires Valid()
      modifies counter
      ensures Valid()
      ensures outcome == if !old(updated) && step == 0 then Fail(ZeroStep) else Pass
      ensures Snapshot() == if old(updated) || step == 0 then old(Snapshot())
                            else old(Snapshot()).(count := old(counter.Value()).(step := step))
    {
      if updated {
        return Pass;
      }
      if step == 0 {
        return Fail(ZeroStep);
      }
      counter.SetStep(step);
      outcome := Pass;
    }

    /** `set_task`: ignored once started, refused when zero; otherwise the
        widths are recomputed. */
    method SetTask(tasks: nat) returns (outcome: Outcome)
      requires Valid()
      modifies this, counter
      ensures Valid()
      ensures outcome == if !old(updated) && tasks == 0 then Fail(ZeroTasks) else Pass
      ensures Snapshot() ==
                if old(updated) || tasks == 0 then old(Snapshot())
                else old(Snapshot()).(count := old(counter.Value()).(tasks := tasks),
                                      cntLength := CntLength(tasks),
                                      statusLength := StatusLength(style.option, CntLength(tasks),
                                                                   style.lstatus, style.rstatus))
    {
      if updated {
        return Pass;
      }
      if tasks == 0 {
        return Fail(ZeroTasks);
      }
      counter.SetTask(tasks);
      InitLength(true);
      outcome := Pass;
    }

    /** `set_done`. */
    method SetDone(doneCh: string)
      requires Valid()
      modifies this
      ensures Valid()
      ensures Snapshot() == if old(updated) then old(Snapshot())
                            else old(Snapshot()).(style := old(style).(doneCh := doneCh))
    {
      if !updated {
        style := style.(doneCh := doneCh);
      }
    }

    /** `set_todo`. */
    method SetTodo(todoCh: string)
      requires Valid()
      modifies this
      ensures Valid()
      ensures Snapshot() == if old(updated) then old(Snapshot())
                            else old(Snapshot()).(style := old(style).(todoCh := todoCh))
    {
      if !updated {
        style := style.(todoCh := todoCh);
      }
    }

    /** `set_startpoint`. */
    method SetStartpoint(startpoint: string)
      requires Valid()
      modifies this
      ensures Valid()
      ensures Snapshot() == if old(updated) then old(Snapshot())
                            else old(Snapshot()).(style := old(style).(startpoint := startpoint))
    {
      if !updated {
        style := style.(startpoint := startpoint);
      }
    }

    /** `set_endpoint`. */
    method SetEndpoint(endpoint: string)
      requires Valid()
      modifies this
      ensures Valid()
      ensures Snapshot() == if old(updated) then old(Snapshot())
                            else old(Snapshot()).(style := old(style).(endpoint := endpoint))
    {
      if !updated {
        style := style.(endpoint := endpoint);
      }
    }

    /** `set_lstatus`: the status width is recomputed even once started,
        where the invariant makes the recomputation change nothing. */
    method SetLstatus(lstatus: string)
      requires Valid()
      modifies this
      ensures Valid()
      ensures Snapshot() ==
                if old(updated) then old(Snapshot())
                else old(Snapshot()).(style := old(style).(lstatus := lstatus),
                                      statusLength := StatusLength(style.option, cntLength, lstatus, style.rstatus))
    {
      if !updated {
        style := style.(lstatus := lstatus);
      }
      InitLength(false);
    }

    /** `set_rstatus`: as `set_lstatus`, for the right bracket. */
    method SetRstatus(rstatus: string)
      requires Valid()
      modifies this
      ensures Valid()
      ensures Snapshot() ==
                if old(updated) then old(Snapshot())
                else old(Snapshot()).(style := old(style).(rstatus := rstatus),
                                      statusLength := StatusLength(style.option, cntLength, style.lstatus, rstatus))
    {
      if !updated {
        style := style.(rstatus := rstatus);
      }
      InitLength(false);
    }

    /** `set_bar_length`. */
    method SetBarLength(length: nat)
      requires Valid()
      modifies this
      ensures Valid()
      ensures Snapshot() == if old(updated) then old(Snapshot())
                            else old(Snapshot()).(style := old(style).(barLength := length))
    {
      if !updated {
        style := style.(barLength := length);
      }
    }

    /** `set_todo_col`. */
    method SetTodoCol(dye: string)
      requires Valid()
      modifies this
      ensures Valid()
      ensures Snapshot() == if old(updated) then old(Snapshot())
                            else old(Snapshot()).(style := old(style).(todoCol := dye))
    {
      if !updated {
        style := style.(todoCol := dye);
      }
    }

    /** `set_done_col`. */
    method SetDoneCol(dye: string)
      requires Valid()
      modifies this
      ensures Valid()
      ensures Snapshot() == if old(updated) then old(Snapshot())
                            else old(Snapshot()).(style := old(style).(doneCol := dye))
    {
      if !updated {
        style := style.(doneCol := dye);
      }
    }

    /** `set_status_col`. */
    method SetStatusCol(dye: string)
      requires Valid()
      modifies this
      ensures Valid()
      ensures Snapshot() == if old(updated) then old(Snapshot())
                            else old(Snapshot()).(style := old(style).(statusCol := dye))
    {
      if !updated {
        style := style.(statusCol := dye);
      }
    }

    /** `set_style(style::Type)`: the enabled fields, with the status width
        recomputed even once started. */
    method SetStyle(selection: bv8)
      requires Valid()
      modifies this
      ensures Valid()
      ensures Snapshot() ==
                if old(updated) then old(Snapshot())
                else old(Snapshot()).(style := old(style).(option := selection),
                                      statusLength := StatusLength(selection, cntLength, style.lstatus, style.rstatus))
    {
      if !updated {
        style := style.(option := selection);
      }
      InitLength(false);
    }

    /** `operator=(const pgbar&)`: ignored for self-assignment and once
        started; otherwise the configuration (`npod_copy`, with the bar
        length), the counter's tasks and step with the progress at zero,
        and both widths (`pod_copy`) are copied. */
    method CopyFrom(other: ProgressBar)
      requires Valid() && other.Valid()
      modifies this, counter
      ensures Valid()
      ensures Snapshot() ==
                if other == this || old(updated) then old(Snapshot())
                else old(Snapshot()).(style := old(other.style),
                                      count := Assigned(old(other.counter.Value())),
                                      cntLength := old(other.cntLength),
                                      statusLength := old(other.statusLength))
    {
      if other == this || updated {
        return;
      }
      var st, cnt, status := other.style, other.cntLength, other.statusLength;
      counter.AssignFrom(other.counter);
      style := st;
      cntLength, statusLength := cnt, status;
    }

    /** The status fields of `generate_barcode`, appended one by one, each
        followed by a divider when a later enabled field follows it. */
    method StatusPieces(ctrller: bv8, rd: Readings) returns (pieces: seq<Piece>)
      ensures pieces == Joined(StatusTexts(ctrller, updated, counter.tasks, rd))
    {
      ghost var pc := if Has(ctrller, PerBit) then [ShowPercentage(updated, rd.proportion)] else [];
      ghost var cc := if Has(ctrller, CntBit) then [ShowTaskCounter(rd.numDone, counter.tasks)] else [];
      ghost var rc := if Has(ctrller, RateBit) then [ShowRate(updated, rd.rate)] else [];
      ghost var tc := if Has(ctrller, TimerBit) then [ShowCountdown(updated, rd)] else [];
      pieces := [];
      if Has(ctrller, PerBit) {
        var text := ShowPercentage(updated, rd.proportion);
        pieces := pieces + [Visible(if Has(ctrller, CntBit) || Has(ctrller, RateBit) || Has(ctrller, TimerBit)
                                    then text + Division else text)];
      }
      assert pieces == Lead(pc, cc + rc + tc);
      if Has(ctrller, CntBit) {
        var text := ShowTaskCounter(rd.numDone, counter.tasks);
        pieces := pieces + [Visible(if Has(ctrller, RateBit) || Has(ctrller, TimerBit) then text + Division else text)];
      }
      assert pieces == Lead(pc, cc + rc + tc) + Lead(cc, rc + tc);
      if Has(ctrller, RateBit) {
        var text := ShowRate(updated, rd.rate);
        pieces := pieces + [Visible(if Has(ctrller, TimerBit) then text + Division else text)];
      }
      assert pieces == Lead(pc, cc + rc + tc) + Lead(cc, rc + tc) + Lead(rc, tc);
      if Has(ctrller, TimerBit) {
        pieces := pieces + [Visible(ShowCountdown(updated, rd))];
      }
      assert pieces == Lead(pc, cc + rc + tc) + Lead(cc, rc + tc) + Lead(rc, tc) + Lead(tc, []);
      JoinedFour(pc, cc, rc, tc);
      assert StatusTexts(ctrller, updated, counter.tasks, rd) == pc + cc + rc + tc;
    }

    /** `generate_barcode`: the bar when its bit is set, the opening and
        closing pieces of the status section when its width is not zero
        (built as the source appends them, around the status fields), and
        the backspaces that erase the previous frame, `total_length` of
        them, counted from the widths of the parts this frame prints. The
        line takes exactly as many columns as there are backspaces. */
    method GenerateBarcode(ctrller: bv8, rd: Readings) returns (erase: string, line: seq<Piece>)
      requires rd.doneLen <= style.barLength
      ensures line == Barcode(style, statusLength, ctrller, updated, counter.tasks, rd)
      ensures erase == if updated then Fill(EraseLength(style, statusLength, ctrller), '\U{8}') else []
      ensures (&& Valid() && updated && SameStatusFields(ctrller, style.option)
               && |style.doneCh| == 1 && |style.todoCh| == 1 && Fits(counter.tasks, rd))
              ==> |erase| == Width(line)
    {
      var st := style;
      var totalLength := 0;
      var bar: seq<Piece> := [];
      if Has(ctrller, BarBit) {
        totalLength := totalLength + st.barLength + |st.startpoint| + |st.endpoint| + 1;
        bar := ShowBar(st, rd.doneLen);
      }
      var open: seq<Piece> := [];
      var close: seq<Piece> := [];
      if statusLength != 0 {
        totalLength := totalLength + statusLength;
        open := [Control(Bold), Control(st.statusCol), Visible(st.lstatus)];
        close := [Visible(st.rstatus), Control(DefaultCol)];
      }
      var fields := StatusPieces(ctrller, rd);
      assert open + fields + close == StatusSection(st, statusLength, ctrller, updated, counter.tasks, rd);
      line := bar + (open + fields + close);
      assert totalLength == EraseLength(st, statusLength, ctrller);
      erase := if updated then Fill(totalLength, '\U{8}') else [];
      if Valid() && updated && SameStatusFields(ctrller, style.option) && |style.doneCh| == 1 && |style.todoCh| == 1
         && Fits(counter.tasks, rd) {
        EraseCoversLine(Snapshot(), ctrller, rd);
      }
    }
  }
}
