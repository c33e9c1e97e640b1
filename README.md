# pgbar: task counter, line layout and bar controller

pgbar is a header-only C++ terminal progress bar (`include/pgbar/pgbar.hpp`).
This project models the integer and string logic underneath it, with the
synchronous `singlethread` renderer:

- `Counting` (`counter.dfy`): the task counter `counter_iterator`. `Count` is
  its value (tasks, step, current). The class `Counter` is the object the
  bar updates in place. Each of its methods is specified by a function on
  `Count`.
- `Renderer` (`renderer.dfy`): `singlethread`, a switch between inactive and
  active with a rate limit of `reflash_rate`. The clock is a parameter. The
  step functions `Activated`, `Suspended` and `Rendered` give its behaviour.
  The class `SingleThread` is the state updated in place. Each of its
  methods reports whether the render task ran.
- `Strings` (`strings.dfy`): `bulk_copy` (string repetition), the manual
  branch of `formatter` (left, right and centre padding), and the decimal
  text of a count (`std::to_string` on an unsigned value).
- `Fields` (`fields.dfy`): the field renderers, the status-section width
  computed by `init_length`, and the line that `generate_barcode` assembles.
  A line is a sequence of pieces: visible text, or control codes (colours,
  bold) that take no columns. A string is a sequence of characters, each
  standing for one byte of one-byte (ASCII) text, so that `|s|` is the
  source's `std::string::size()` and one character takes one column.
- `Bar` (`bar.dfy`): the controller `pgbar`. It has:
  - its configuration, counter and renderer;
  - the flag `update_flag_`;
  - `update`, `update(k)`, `reset`, the setters, copy assignment,
    `init_length` and `generate_barcode`.

  `BarState` is the bar's whole state as a value. `ValidState` is the
  invariant every method keeps. `Updated` and `AfterReset` give the
  controller's transitions as functions, and lemmas state what they do over
  whole runs.

The render task of the bar (`rendering`) writes frames to the stream. Its
one effect on the bar's state is to raise `update_flag_` on its first run,
and that is modelled. `update` therefore starts the bar through the
renderer's activation, as in the source.

Where the library's comments or documentation and its code disagree, the model follows
the code:

- `reflash_rate` is 35 microseconds (`include/pgbar/pgbar.hpp:133-134`),
  although the comment beside it speaks of about 25 Hz.
- From a fresh counter, `tasks / step` (rounded down) calls of `operator++`
  end the counter. The last partial step counts as finished, because the
  end test is "fewer tasks remain than one step". This is not
  `ceil(tasks / step)`.
- A first `update()` on a bar whose step exceeds its tasks sets the count to
  the step, beyond the tasks. The claim that an update never passes the
  tasks holds for every other update (`Bar.UpdateWithinTasks`,
  `Bar.FirstStepOvershoot`). That case is not listed as a finding. Its
  counter has already ended before the step, so the render task prints the
  final frame during the activation, before the count is increased.

## Model

| member | source | states |
|---|---|---|
| `Strings.Repeat` | include/pgbar/pgbar.hpp:534-540 | `s` repeated `n` times is `n` times as long as `s` |
| `Strings.RepeatAt` | include/pgbar/pgbar.hpp:534-540 | copy `k` of the repetition is `s` itself, character by character |
| `Strings.RepeatEmpty` | include/pgbar/pgbar.hpp:535 | repeating zero times or repeating the empty string gives the empty string |
| `Strings.BulkCopy` | include/pgbar/pgbar.hpp:534-540 | the loop appending `src` `time` times returns `src` repeated `time` times, empty for zero copies or an empty source |
| `Strings.RepeatAppend` | include/pgbar/pgbar.hpp:537-538 | appending one more copy at the end gives one more repetition, as each pass of `bulk_copy`'s loop does |
| `Strings.Fill` | include/pgbar/pgbar.hpp:516-524 | `std::string(n, c)` is `n` characters, each `c`; the padding blanks of `formatter` and the backspace erase prefix (711) are both this |
| `Strings.LeadingBlanks` | include/pgbar/pgbar.hpp:516-525 | the blanks before the text never exceed the blanks to distribute |
| `Strings.Format` | include/pgbar/pgbar.hpp:506-527 | width 0 gives the empty string; text as wide as the width is unchanged; otherwise the result is exactly `width` long, with the text at the layout's offset and blanks everywhere else |
| `Strings.CenterSplit` | include/pgbar/pgbar.hpp:521-524 | centring puts as many blanks on the left as on the right, or one more |
| `Strings.NumDigits` | include/pgbar/pgbar.hpp:823-824 | a count has at least one digit |
| `Strings.NumDigitsIsLog10` | include/pgbar/pgbar.hpp:823-824 | the digit count is `floor(log10 n) + 1`: `10^(d-1) <= n < 10^d` |
| `Strings.NumDigitsMonotone` | include/pgbar/pgbar.hpp:584-591 | a larger count never has fewer digits |
| `Strings.DecimalString` | include/pgbar/pgbar.hpp:585 | the text of `n` has `NumDigits(n)` decimal digits and no leading zero |
| `Strings.DecimalRoundTrip` | include/pgbar/pgbar.hpp:585 | reading the decimal text back gives the count |
| `Strings.DecimalStringInjective` | include/pgbar/pgbar.hpp:585 | different counts have different texts |
| `Counting.EndedIffStepOvershoots` | include/pgbar/pgbar.hpp:187-190 | the division-free end test holds exactly when the tasks are reached or one more step would pass them |
| `Counting.Ended` | include/pgbar/pgbar.hpp:187-190 | reference definition of `is_ended`; `Counting.EndedIffStepOvershoots` relates it to the overshoot test and `Counting.EndsAfterQuotientSteps` says when it first holds |
| `Counting.Incremented` | include/pgbar/pgbar.hpp:198-200 | reference definition of `operator++`; its properties are in `Counting.IncrementWithinTasks` and `Counting.IteratedCurrent` |
| `Counting.Assigned` | include/pgbar/pgbar.hpp:205-208 | reference definition of counter assignment; its properties are in `Counting.AssignedRestarts` |
| `Counting.Advanced` | include/pgbar/pgbar.hpp:201-204 | `+= k` keeps tasks and step, never passes the tasks, never goes back from within the tasks, is exact when it fits and saturates at the tasks |
| `Counting.AssignedRestarts` | include/pgbar/pgbar.hpp:205-208 | assignment copies tasks and step, sets the progress to zero and is idempotent; the copy has ended exactly when it has no tasks or the step exceeds them |
| `Counting.IncrementWithinTasks` | include/pgbar/pgbar.hpp:198-200 | `++` on a counter that has not ended adds exactly one step and stays within the tasks |
| `Counting.IteratedCurrent` | include/pgbar/pgbar.hpp:198-200 | `k` calls of `++` add `k * step` and keep tasks and step |
| `Counting.EndsAfterQuotientSteps` | include/pgbar/pgbar.hpp:187-200 | from zero, the counter has ended after `k` calls of `++` exactly when `k >= tasks / step`, and up to then it stays within the tasks |
| `Counting.AdvancedAsWritten` | include/pgbar/pgbar.hpp:201-204 | `+=` with the 64-bit unsigned sum as written keeps tasks and step and stays within the tasks |
| `Counting.AdvancedAsWrittenAgrees` | include/pgbar/pgbar.hpp:201-204 | without a wrap, the written `+=` is the saturating one |
| `Counting.AdvanceWrapsBackwards` | include/pgbar/pgbar.hpp:201-204 | an increment of `2^64 - 1` from 5 of 10 tasks wraps to 4 as written, where the saturating addition gives 10 |
| `Counting.Counter.constructor` | include/pgbar/pgbar.hpp:179-180 | a new counter has the given tasks and step and progress zero |
| `Counting.Counter.Increment` | include/pgbar/pgbar.hpp:198-200 | the new value is one step further, without a clamp |
| `Counting.Counter.Advance` | include/pgbar/pgbar.hpp:201-204 | the new value is the saturating `+= k` |
| `Counting.Counter.AssignFrom` | include/pgbar/pgbar.hpp:205-208 | the new value has the other counter's tasks and step and progress zero |
| `Counting.Counter.SetCurrent` | include/pgbar/pgbar.hpp:209-211 | only the progress changes, to the given value |
| `Counting.Counter.SetStep` | include/pgbar/pgbar.hpp:212-214 | only the step changes |
| `Counting.Counter.SetTask` | include/pgbar/pgbar.hpp:215-217 | only the tasks change |
| `Renderer.Activated` | include/pgbar/pgbar.hpp:429-435 | an inactive renderer stamps the time, runs the task and becomes active; an active one runs nothing and changes nothing |
| `Renderer.Suspended` | include/pgbar/pgbar.hpp:436-441 | an active renderer runs the task once more and becomes inactive; the time stamp is kept |
| `Renderer.Rendered` | include/pgbar/pgbar.hpp:442-449 | the task runs exactly when the renderer is active and at least `reflash_rate` has passed, and only then is the time stamped; it never switches on or off |
| `Renderer.ActivateSuspendCycle` | include/pgbar/pgbar.hpp:429-441 | a second activation does nothing; activation then suspension runs the task twice and leaves an inactive renderer stamped with the activation time |
| `Renderer.RenderRunsSpaced` | include/pgbar/pgbar.hpp:442-449 | along any run of render requests, consecutive task runs are at least `reflash_rate` apart, an inactive renderer never runs, and renders never switch it |
| `Renderer.SingleThread.constructor` | include/pgbar/pgbar.hpp:421-425 | a new renderer is inactive |
| `Renderer.SingleThread.Active` | include/pgbar/pgbar.hpp:429-435 | the new state and the run of the task are those of `Activated` |
| `Renderer.SingleThread.Suspend` | include/pgbar/pgbar.hpp:436-441 | the new state and the run of the task are those of `Suspended` |
| `Renderer.SingleThread.Render` | include/pgbar/pgbar.hpp:442-449 | the new state and the run of the task are those of `Rendered` |
| `Fields.ShowBarWidth` | include/pgbar/pgbar.hpp:557-566 | the bar takes the columns of the start token, both runs of cells, the end token and one blank; colour codes take none |
| `Fields.ShowBarWidthOneColumn` | include/pgbar/pgbar.hpp:557-566 | with one-column glyphs the bar takes `bar_length` plus the tokens plus one column, whatever the fill |
| `Fields.ShowBar` | include/pgbar/pgbar.hpp:557-566 | reference definition of the bar's pieces; its width is in `Fields.ShowBarWidth` and `Fields.ShowBarWidthOneColumn` |
| `Fields.ShowPercentage` | include/pgbar/pgbar.hpp:568-582 | before the first update the text is "0.00%" padded on the right to 7; afterwards it is the percentage and `%`, right-aligned in 7 columns |
| `Fields.ShowTaskCounter` | include/pgbar/pgbar.hpp:584-591 | reference definition of `show_task_counter`; its layout is in `Fields.TaskCounterLayout` |
| `Fields.CntLength` | include/pgbar/pgbar.hpp:823-824 | reference definition of `cnt_length_`, `2 * digits(tasks) + 1`; `Fields.TaskCounterLayout` shows the task counter is that wide |
| `Fields.TaskCounterLayout` | include/pgbar/pgbar.hpp:584-591 | with at most the total done, the counter is `2 * digits(total) + 1` wide: the done count right-aligned under the total's width, `/`, the total |
| `Fields.ShowRate` | include/pgbar/pgbar.hpp:593-628 | before the first update the text is "0.00 Hz" centred in 10 columns; afterwards a rate text of at most 10 characters is centred in 10 columns |
| `Fields.ToTime` | include/pgbar/pgbar.hpp:642-655 | reference definition of the `to_time` lambda; its units are in `Fields.ToTimeUnits` and its width in `Fields.ToTimeWidth` |
| `Fields.ToTimeUnits` | include/pgbar/pgbar.hpp:642-655 | under a minute the text is whole seconds, from 9 minutes to an hour whole minutes, from 9 hours on whole hours capped at 99 |
| `Fields.ToTimeWidth` | include/pgbar/pgbar.hpp:642-655 | a time text takes at most 4 columns, and the whole-number ones at most 3 |
| `Fields.ShowCountdown` | include/pgbar/pgbar.hpp:630-666 | before the first update the text is "0s < 99h" centred in 11 columns; afterwards, with one-decimal texts of at most 3 characters, it is 11 columns wide |
| `Fields.StatusCount` | include/pgbar/pgbar.hpp:834-835 | at most four status fields are enabled |
| `Fields.StatusLength` | include/pgbar/pgbar.hpp:826-837 | reference definition of `status_length_`; its properties are in `Fields.StatusLengthZeroIff` and `Fields.StatusSectionWidth` |
| `Fields.StatusLengthZeroIff` | include/pgbar/pgbar.hpp:821-838 | with a non-zero counter width, the status width is zero exactly when no status field is enabled |
| `Fields.StatusTexts` | include/pgbar/pgbar.hpp:684-706 | there is one text for each enabled status field |
| `Fields.JoinedWidth` | include/pgbar/pgbar.hpp:684-706 | joined fields take their own widths plus one divider between each two |
| `Fields.JoinedCons` | include/pgbar/pgbar.hpp:684-706 | a field joined in front carries the divider exactly when other fields follow |
| `Fields.JoinedFour` | include/pgbar/pgbar.hpp:684-706 | each of the four optional fields carries a divider exactly when a later field is enabled |
| `Fields.SameStatusCount` | include/pgbar/pgbar.hpp:744-746 | a per-frame controller that differs only in the bar bit enables as many status fields |
| `Fields.StatusTextsWidth` | include/pgbar/pgbar.hpp:474-476 | field texts of their intended widths add up to the fixed widths of the enabled fields |
| `Fields.StatusSection` | include/pgbar/pgbar.hpp:680-708 | reference definition of the status section; its width is in `Fields.StatusSectionWidth` |
| `Fields.Barcode` | include/pgbar/pgbar.hpp:672-713 | reference definition of the assembled line; its width is in `Fields.BarcodeWidth`, and `Bar.ProgressBar.GenerateBarcode` is proved equal to it |
| `Fields.EraseLength` | include/pgbar/pgbar.hpp:674-682 | reference definition of `total_length`; `Fields.BarcodeWidth` shows it is the line's width |
| `Fields.StatusSectionWidth` | include/pgbar/pgbar.hpp:680-708 | the status section takes exactly the status width `init_length` computed |
| `Fields.BarcodeWidth` | include/pgbar/pgbar.hpp:674-713 | the assembled line takes exactly `total_length` columns, the length of the erase prefix |
| `Bar.Apply` | include/pgbar/pgbar.hpp:1070-1080 | neither kind of update changes the tasks or the step |
| `Bar.UpdateOutcome` | include/pgbar/pgbar.hpp:777-780 | an update is accepted exactly when the bar is not done and has tasks; it is refused as full exactly when done |
| `Bar.Done` | include/pgbar/pgbar.hpp:923-925 | reference definition of `is_done`; its properties are in `Bar.ProgressBar.IsDone` and `Bar.EndedBarRefuses` |
| `Bar.AfterUpdate` | include/pgbar/pgbar.hpp:781-788 | reference definition of an accepted update; its properties are in `Bar.UpdateKeepsValid` and `Bar.FirstUpdateStamp`, and `Bar.ProgressBar.DoUpdate` is proved against it |
| `Bar.Updated` | include/pgbar/pgbar.hpp:777-788 | reference definition of `do_update`; its properties are in `Bar.UpdateKeepsValid`, `Bar.UpdateWithinTasks` and `Bar.UpdatesToEnd` |
| `Bar.UpdateKeepsValid` | include/pgbar/pgbar.hpp:765-788 | an accepted update keeps the invariant, starts the bar, changes the counter only by the increment, keeps the configuration and leaves the renderer running exactly when the counter has not ended; a refused update changes nothing |
| `Bar.FirstUpdateStamp` | include/pgbar/pgbar.hpp:429-449 | the first update stamps the renderer with the reading `active()` takes, or with the later one `render()` takes when that comes at least `reflash_rate` after it |
| `Bar.UpdateWithinTasks` | include/pgbar/pgbar.hpp:777-787 | from within the tasks, an update of a started bar, an update by an amount, or a first update whose step fits never passes the tasks |
| `Bar.FirstStepOvershoot` | include/pgbar/pgbar.hpp:777-787 | a first `update()` whose step exceeds the tasks lands on the step and finishes the bar with the renderer stopped |
| `Bar.EndedBarRefuses` | include/pgbar/pgbar.hpp:777-787 | once an update ends the counter the bar is done and the next update is refused as full |
| `Bar.UpdatesToEnd` | include/pgbar/pgbar.hpp:1070-1072 | from a fresh bar with `tasks >= step >= 1`, `tasks / step` updates are all accepted and each adds a step; the bar is done after exactly that many, and the next is refused |
| `Bar.ResetRearms` | include/pgbar/pgbar.hpp:927-935 | reset keeps the invariant, the configuration, the tasks and the step, sets the progress to zero, clears the flag, and a started bar can then be updated again |
| `Bar.AfterReset` | include/pgbar/pgbar.hpp:927-935 | reference definition of `reset`; its properties are in `Bar.ResetRearms`, and `Bar.ProgressBar.Reset` is proved against it |
| `Bar.EraseCoversLine` | include/pgbar/pgbar.hpp:672-713 | for a valid bar, one-column glyphs and field texts of their intended widths, the line takes exactly `total_length` columns, the length of the erase prefix |
| `Bar.ProgressBar.IsDone` | include/pgbar/pgbar.hpp:923-925 | done means started, with the tasks reached or one more step passing them |
| `Bar.ProgressBar.constructor` | include/pgbar/pgbar.hpp:840-869 | a new bar has the default configuration, its counter at zero, an inactive renderer and the widths of `init_length`, and keeps the invariant |
| `Bar.ProgressBar.InitLength` | include/pgbar/pgbar.hpp:821-838 | the counter width is recomputed when asked, and the status width is the one computed from the enabled fields, the bracket lengths and the dividers |
| `Bar.ProgressBar.Rendering` | include/pgbar/pgbar.hpp:723-734 | the render routine raises `update_flag_` and changes nothing else |
| `Bar.ProgressBar.DoUpdate` | include/pgbar/pgbar.hpp:765-788 | the outcome and the new state are those of `UpdateOutcome` and `Updated`, with `active()` and `render()` each taking its own clock reading, and the invariant is kept |
| `Bar.ProgressBar.Update` | include/pgbar/pgbar.hpp:1070-1072 | `update()` is the update by one `++` |
| `Bar.ProgressBar.UpdateBy` | include/pgbar/pgbar.hpp:1077-1081 | `update(k)` is the update by `+= k` |
| `Bar.ProgressBar.Reset` | include/pgbar/pgbar.hpp:927-935 | the new state is `AfterReset` of the old one, and the invariant is kept |
| `Bar.ProgressBar.SetStep` | include/pgbar/pgbar.hpp:937-941 | ignored once started; refused with the zero-step error on 0; otherwise only the step changes |
| `Bar.ProgressBar.SetTask` | include/pgbar/pgbar.hpp:944-951 | ignored once started; refused with the zero-tasks error on 0; otherwise the tasks change and both widths are recomputed |
| `Bar.ProgressBar.SetDone` | include/pgbar/pgbar.hpp:953-957 | once started nothing changes; otherwise only the done glyph changes |
| `Bar.ProgressBar.SetTodo` | include/pgbar/pgbar.hpp:959-963 | once started nothing changes; otherwise only the todo glyph changes |
| `Bar.ProgressBar.SetStartpoint` | include/pgbar/pgbar.hpp:965-969 | once started nothing changes; otherwise only the start token changes |
| `Bar.ProgressBar.SetEndpoint` | include/pgbar/pgbar.hpp:971-975 | once started nothing changes; otherwise only the end token changes |
| `Bar.ProgressBar.SetLstatus` | include/pgbar/pgbar.hpp:977-982 | once started nothing changes, although the width is recomputed; otherwise the left bracket and the status width change |
| `Bar.ProgressBar.SetRstatus` | include/pgbar/pgbar.hpp:984-989 | once started nothing changes, although the width is recomputed; otherwise the right bracket and the status width change |
| `Bar.ProgressBar.SetBarLength` | include/pgbar/pgbar.hpp:991-995 | once started nothing changes; otherwise only the bar length changes |
| `Bar.ProgressBar.SetTodoCol` | include/pgbar/pgbar.hpp:997-1001 | once started nothing changes; otherwise only the todo colour changes |
| `Bar.ProgressBar.SetDoneCol` | include/pgbar/pgbar.hpp:1003-1007 | once started nothing changes; otherwise only the done colour changes |
| `Bar.ProgressBar.SetStatusCol` | include/pgbar/pgbar.hpp:1009-1013 | once started nothing changes; otherwise only the status colour changes |
| `Bar.ProgressBar.SetStyle` | include/pgbar/pgbar.hpp:1015-1020 | once started nothing changes, although the width is recomputed; otherwise the enabled fields and the status width change |
| `Bar.ProgressBar.CopyFrom` | include/pgbar/pgbar.hpp:1056-1062 | ignored for self-assignment and once started; otherwise the configuration, the counter's tasks and step (progress zero) and both widths are copied |
| `Bar.ProgressBar.StatusPieces` | include/pgbar/pgbar.hpp:684-706 | the fields appended one by one, each with a divider when a later field is enabled, are the enabled fields joined by dividers |
| `Bar.ProgressBar.GenerateBarcode` | include/pgbar/pgbar.hpp:672-714 | the line is the bar (when its bit is set) and the status section; the erase prefix is empty before the first update and `total_length` backspaces after it; for a valid started bar with one-column glyphs and field texts of their intended widths, the prefix is exactly as long as the line is wide |

## Left out

- The `multithread` renderer (worker thread, atomics, condition variable): the model is about the synchronous renderer only.
- Floating-point formatting. This covers the fill rounding of `show_bar`, the percentage and rate texts, and the one-decimal time texts. These results are inputs, collected in `Fields.Readings`.
- The 1% repaint threshold in `rendering`: the frame's controller byte is an input of `GenerateBarcode`.
- The stream writes of `rendering` and its function-local `static` state (`done_flag`, the first-invocation time). Only its effect on `update_flag_` is modelled.
- The `static` averaging state inside `show_rate`.
- The clock: every time is a parameter in nanoseconds. An update takes two readings (`Bar.ClockReads`): the one `active()` takes on the first update and the later one `render()` takes. No order between them is assumed, as `system_clock` is not monotonic.
- TTY detection (`check_output_stream`) and the `in_tty_` flag, which only decide whether frames are written.
- The C++20 `std::format` branch of `formatter`, the C++20 `style` bundle constructor and `set_style(style)`: these are only compiled under C++20. Only the manual padding branch and `set_style(style::Type)` are modelled.
- Type traits, concepts and the colour tables: these are compile-time plumbing.
- The copy and move constructors (908-917): they build a new bar with another bar's configuration and a counter restarted at zero. They add no behaviour beyond the constructor and `Bar.ProgressBar.CopyFrom`.
- Move assignment `operator=(pgbar&&)` (1063-1067) is not modelled. Unlike copy assignment, it has no self-assignment check and no `is_updated()` guard, so it is not frozen once the bar has started. It replaces the whole configuration (`npod_move`, 809-820) and, through `pod_copy` (791-796), the tasks, step, bar length and both widths, restarting the counter at zero. `update_flag_` and the renderer keep their state. On a started bar it can therefore leave a state the model's invariant `Bar.ValidState` rules out. Moving in a bar with zero tasks leaves a started bar without tasks. Moving in a bar whose step exceeds its tasks leaves an ended counter with the renderer still active.
- The counter's `begin`, `end`, `operator*`, `operator==` and `operator!=` are not separate members. They only read the counter's fields, and the model reads those fields directly: `task_cnt_.end() == 0` in `do_update` (779) is `counter.tasks == 0`, `*task_cnt_.end()` in `show_task_counter`, `show_countdown` and `rendering` (585, 663, 742, 757) is the tasks, and `task_cnt_ != 0` in `rendering` (740) compares the progress with zero.
- `Bar.ProgressBar.IsUpdated` (`is_updated`) has no contract; it only reads the flag.
- `std::log10(0)` in `init_length` is undefined. The model uses one digit for zero tasks, as the text "0" has.
- `init_length` computes the digit count as `static_cast<size_t>(std::log10(n) + 1)` in `double` (823-824). `Fields.CntLength` uses the exact integer digit count instead. The two depart from about 10^15 tasks up, where `log10` of a number just below a power of ten rounds up to that power. For example, `log10(999999999999999)` is 15.0, so the source's `cnt_length_` is 33 where the model's is 31.
- Fields.ShowBar: requires the fill to be at most the bar length. In the source, a larger fill underflows `bar_length_ - done_len`.
- Counting.Counter.Increment: `operator++` is modelled on unbounded integers, without 64-bit wrap-around.
- Counting.Counter.Advance: uses the corrected saturating addition; the 64-bit wrap of the source is modelled separately, by `Counting.AdvancedAsWritten`.
- Text encoding: the source measures text with `std::string::size()`, which counts bytes (`formatter` at 508 and 516, `total_length` at 677, `init_length` at 833). The model's strings stand for one-byte (ASCII) text, where bytes, characters and columns agree. A multi-byte glyph such as `│` (3 bytes, one column) makes the source's `total_length` and `status_length_` exceed the line's width; the model does not capture that.
- Fields.StatusSectionWidth: the equality with the width `init_length` computes is stated for one-byte brackets only; a multi-byte bracket makes `status_length_` larger than the section's width.
- Fields.BarcodeWidth: the equality of the erase length and the line's width is stated for one-byte tokens and brackets only; for multi-byte ones the source writes more backspaces than the line is wide.
- Bar.ProgressBar.GenerateBarcode: the width equality is stated only for one-byte text, for one-column glyphs and for field texts of their intended widths. Wider glyphs or texts make the line wider than the erase prefix, and multi-byte text makes the erase prefix longer than the line.

## Findings

| source | as written | input that shows it | evidently intended | confidence | as-written member | corrected member |
|---|---|---|---|---|---|---|
| include/pgbar/pgbar.hpp:201-204 | `current_ + _increment` is computed in 64-bit unsigned arithmetic and wraps before it is compared with the tasks | counter at 5 of 10 tasks, `update(2^64 - 1)`: the progress becomes 4 and moves backwards | saturate at the number of tasks, as the comment on `update(next_step)` says | not executed | `Counting.AdvanceWrapsBackwards` | `Counting.Advanced` |
