# Scope widget and preferences dialog: a verified model

This project models the signal scope of an sACN viewer in Dafny, together with the
decisions its preferences dialog takes. The scope has three parts:

- **Channels.** A `ScopeChannel` is one watched (universe, address) pair. It keeps its
  most recent samples in a fixed ring of RING_BUF_SIZE slots (50 in this model), with a
  write cursor, a count and the time of the newest sample.
- **Ingest.** The scope widget's level-change handler routes a notification to every
  channel of the list that watches the notified (universe, address). It drops a point
  that comes less than a hundredth of the timebase after the channel's newest one. Until
  a matching channel keeps the point, a kept point is stored as coarse * 255, plus the
  fine byte at the next address for sixteen-bit channels; after that, later matching
  channels in the same pass combine the already-stored level again (see Findings).
- **Painting.** The paint handler chooses the axis labels and, for every enabled
  channel, the samples that enter its trace. A sample enters when it lies at most ten
  timebase divisions before that channel's newest sample; the newest sample itself is
  never visited.

The dialog part models four things:

- how a stored transmit timeout is shown as hours, minutes and seconds;
- how it is recombined when the dialog is accepted;
- which display format the radio buttons select;
- when accepting asks for a restart.

Files and modules:

- `scope_channel.dfy` (`ScopeChannels`): the ring-buffer class. A ghost `History` holds
  every point added since the last clear. The invariant `Ring` ties each slot of the
  array to a point of that history.
- `scope_ingest.dfy` (`ScopeIngest`): one pass of the handler over the channel list, as
  pure functions (`Step`, `Pass`) on a map from channel objects to their histories. The
  flag `inPlace` selects one of two behaviours:
  - `true`: the handler as written, which rewrites its own point's level as it goes;
  - `false`: the intended handler (see Findings).
- `scope_render.dfy` (`ScopeRender`): the keep test, the choice of trace samples and
  their order, and the two label loops.
- `scope_widget.dfy` (`ScopeWidgets`): the widget class. It holds the channel list, the
  timebase, the running flag and a ghost log of listener requests. Its handler is proved
  to move every channel's history exactly as the intended `Pass` prescribes.
- `preferences_dialog.dfy` (`PreferencesDialog`): the timeout split and recombination,
  the format radios, and the accept handler, which returns the new preferences and the
  restart flag.

## Model

| member | source | states |
|---|---|---|
| ScopeChannels.RingAdd | src/scopewidget.cpp:52-58 | Writing at the cursor, advancing it modulo the capacity and counting up to the capacity keeps every retained sample in its slot, for the history extended by the new point |
| ScopeChannels.RingGet | src/scopewidget.cpp:72-77 | Slot `(last + index) % size` is in range and holds retained sample `index`, oldest first, both before and after the ring wraps |
| ScopeChannels.ScopeChannel.constructor | src/scopewidget.cpp:33-40 | The default channel watches universe 1, address 1, is eight-bit and starts cleared with an empty valid ring |
| ScopeChannels.ScopeChannel.WithIdentity | src/scopewidget.cpp:43-50 | A channel for the given universe and address is eight-bit and starts cleared with an empty valid ring |
| ScopeChannels.ScopeChannel.AddPoint | src/scopewidget.cpp:52-58 | The point lands in the cursor slot; the cursor advances modulo 50; the count saturates at 50; the highest time becomes the point's time; the identity is unchanged; the retained samples gain the point and lose the oldest once the ring is full |
| ScopeChannels.ScopeChannel.Clear | src/scopewidget.cpp:60-65 | Count, cursor and highest time return to 0, no sample is retained and the identity is unchanged |
| ScopeChannels.ScopeChannel.Count | src/scopewidget.cpp:67-70 | The count is the number of points since the last clear, capped at 50, and equals the number of retained samples |
| ScopeChannels.ScopeChannel.GetPoint | src/scopewidget.cpp:72-77 | Index `i` returns the i-th oldest retained sample, i.e. the point added at position max(0, N - 50) + i of the N points since the last clear |
| ScopeChannels.ScopeChannel.SetUniverse | src/scopewidget.cpp:80-87 | The universe becomes the value; the samples are cleared exactly when it changed, and otherwise nothing changes |
| ScopeChannels.ScopeChannel.SetAddress | src/scopewidget.cpp:89-96 | The address becomes the value; the samples are cleared exactly when it changed, and otherwise nothing changes |
| ScopeIngest.Combine | src/scopewidget.cpp:277-287 | The stored level is coarse * 255 for eight-bit channels and coarse * 255 + fine for sixteen-bit ones; a coarse level in 0..255 gives a level in 0..65280 |
| ScopeIngest.Step | src/scopewidget.cpp:270-287 | One entry's handling keeps the set of tracked channels; the intended handler never changes the level it holds |
| ScopeIngest.Pass | src/scopewidget.cpp:268-289 | A whole pass keeps the set of tracked channels; in the intended handler the held level stays the notification's own |
| ScopeIngest.PassExtend | src/scopewidget.cpp:268-289 | The handler walks the list front to back: a pass over one more entry is the shorter pass followed by that entry's step |
| ScopeIngest.PassLeavesOthers | src/scopewidget.cpp:270 | A channel that no matching entry names keeps its points |
| ScopeIngest.PassAtMostOnePoint | src/scopewidget.cpp:275-276 | With a positive timebase a channel gains at most one point per notification, however often it is listed, and only when the event is at least timebase/100 past its highest time |
| ScopeIngest.PassLoneMatch | src/scopewidget.cpp:268-289 | When exactly one entry matches, its channel gets exactly the decimated and combined point |
| ScopeIngest.PassUntouchedLevel | src/scopewidget.cpp:268-289 | Without a matching entry nothing is stored and the held level is the notification's own |
| ScopeIngest.PassKeepsSpacing | src/scopewidget.cpp:275-276 | Every channel's points stay at least timebase/100 apart, counted from time 0 after a clear |
| ScopeIngest.CarriedLevelCounterexample | src/scopewidget.cpp:277-287 | As written, a second eight-bit channel on the same address stores 200 * 255 * 255 where the first stores 200 * 255; the intended handler stores 200 * 255 in both |
| ScopeIngest.IntendedPassPerChannel | src/scopewidget.cpp:268-289 | In the intended handler with a positive timebase, every channel with a matching entry gets exactly the decimated point combining the notification's coarse level (and fine byte) per its first matching entry, however many entries match; later entries for the same channel are decimated |
| ScopeIngest.IntendedPassLevelsBounded | src/scopewidget.cpp:277-287 | In the intended handler, a coarse level in 0..255 only ever appends levels in 0..65280, to every channel, however many entries match |
| ScopeIngest.ClearedChannelDropsEarlyPoint | src/scopewidget.cpp:275-276 | Right after a clear, a point is dropped exactly when its time is below timebase/100 |
| ScopeRender.KeptIndicesExact | src/scopewidget.cpp:216-223 | The scan keeps exactly the visited samples whose x offset is not negative, in increasing index order |
| ScopeRender.TraceOf | src/scopewidget.cpp:216-233 | A channel's path holds exactly the kept samples other than the newest, oldest first, each once; only the first is a move |
| ScopeRender.KeptWithinWindow | src/scopewidget.cpp:219-223 | With positive width and timebase, a sample is kept exactly when it is at most ten divisions older than the channel's highest time |
| ScopeRender.NewestAtRightEdge | src/scopewidget.cpp:219-221 | A sample at the channel's highest time maps to the plot's right edge |
| ScopeRender.TraceWindow | src/scopewidget.cpp:216-223 | Sample i is on the path exactly when it is not the newest and lies within ten divisions of the highest time |
| ScopeRender.ScanStep | src/scopewidget.cpp:216-233 | One scan step appends sample i exactly when it is kept: as a move when nothing was kept before, as a line otherwise |
| ScopeRender.TraceChannel | src/scopewidget.cpp:213-233 | The scan loop with its `first` flag builds exactly the path TraceOf specifies for the channel's retained samples |
| ScopeRender.VerticalLabels | src/scopewidget.cpp:141-160 | Eleven labels, 100% down to 0% in steps of 10 |
| ScopeRender.HorizontalLabels | src/scopewidget.cpp:166-189 | Eleven labels i * timebase: milliseconds when the timebase is under 1000, otherwise whole seconds |
| ScopeWidgets.RemoveAll | src/scopewidget.cpp:256 | The removed channel no longer occurs; every other channel keeps its number of occurrences; a list without it is unchanged |
| ScopeWidgets.RemoveAllAppend | src/scopewidget.cpp:256 | Removal distributes over concatenation, so the remaining channels keep their order |
| ScopeWidgets.ScopeWidget.constructor | src/scopewidget.cpp:100-104 | A new widget is stopped, has a 10 ms timebase and no channels, and has made no listener requests |
| ScopeWidgets.ScopeWidget.SetTimebase | src/scopewidget.cpp:240-244 | Only the timebase changes |
| ScopeWidgets.ScopeWidget.AddChannel | src/scopewidget.cpp:246-252 | The channel is appended and its address is monitored on its universe's listener |
| ScopeWidgets.ScopeWidget.RemoveChannel | src/scopewidget.cpp:254-259 | Every occurrence of the channel is removed and its address is unmonitored |
| ScopeWidgets.ScopeWidget.Start | src/scopewidget.cpp:293-304 | The widget runs and every listed channel is cleared, keeping its identity and enabled flag |
| ScopeWidgets.ScopeWidget.Stop | src/scopewidget.cpp:306-309 | The widget stops; the samples stay |
| ScopeWidgets.ScopeWidget.DataReady | src/scopewidget.cpp:261-291 | While stopped every channel keeps its points; while running every channel's points move exactly as the intended pass prescribes; identities and enabled flags are kept |
| ScopeWidgets.ScopeWidget.Walk | src/scopewidget.cpp:268-289 | The loop over the channel list moves the histories exactly as the intended pass over the whole list |
| ScopeWidgets.ScopeWidget.Offer | src/scopewidget.cpp:270-287 | One entry moves the channels as the intended step: routing match, decimation, then the combined point is stored |
| ScopeWidgets.ScopeWidget.Store | src/scopewidget.cpp:280-285 | Adding a point to one listed channel extends exactly that channel object's history and keeps every channel valid |
| ScopeWidgets.ScopeWidget.Paint | src/scopewidget.cpp:141-235 | Both label rows, and per channel in list order: nothing for a disabled channel, otherwise the path TraceOf specifies |
| PreferencesDialog.SplitTimeout | src/preferencesdialog.cpp:77-79 | The hour, minute and second shown for a positive timeout have minutes and seconds in 0..59 |
| PreferencesDialog.SplitThenCombine | src/preferencesdialog.cpp:77-118 | Recombining the split of a positive timeout as accept does gives the timeout back |
| PreferencesDialog.CombineThenSplit | src/preferencesdialog.cpp:77-79 | Spin values with minutes and seconds in 0..59 that stand for a positive timeout are exactly the split of that timeout |
| PreferencesDialog.TimeoutGroupFor | src/preferencesdialog.cpp:73-87 | The group is checked exactly for a positive timeout and then shows that many seconds; otherwise the spin boxes are left as they were |
| PreferencesDialog.TimeoutRoundTrip | src/preferencesdialog.cpp:73-121 | Opening and accepting the dialog unchanged stores a positive timeout again (spin boxes taking the split values unclamped), and 0 for any other |
| PreferencesDialog.CheckFormat | src/preferencesdialog.cpp:60-108 | Starting from no radio checked, each stored format checks exactly its own radio, an unrecognised value checks none, and accept (lines 102-108) reads the radios back as the same format |
| PreferencesDialog.FirstChangedInterface | src/preferencesdialog.cpp:125-139 | The first checked interface button whose interface differs from the current one, or none when every checked button names the current interface |
| PreferencesDialog.FirstChangedIsAt | src/preferencesdialog.cpp:125-139 | The loop's break at button i means button i is the first qualifying one |
| PreferencesDialog.Accept | src/preferencesdialog.cpp:97-142 | Every preference is taken from the dialog: the last checked format radio wins, an unchecked timeout stores 0, and the interface is the first changed one; a restart is requested exactly when the DD-only box changed, some checked interface differs from the current one, or the listen-all box changed |

## Left out

- Drawing: pens, fonts, grid lines, the painter's transforms and each sample's y pixel are not modelled. A trace is the ordered list of samples it passes through.
- Widget geometry: the plot rectangle's margins are not modelled. The plot width is an input of `Paint`.
- ScopeWidgets.ScopeWidget.Paint: requires a non-zero timebase. With timebase 0 the source divides by zero in floating point and the outcome is not modelled. ScopeRender.TraceChannel has the same requirement.
- ScopeRender.HorizontalLabels: the source's `int` label time can overflow for huge timebases; the model uses unbounded integers.
- ScopeRender.PixelX: the trace test's `maxTime` (src/scopewidget.cpp:203) can overflow for huge timebases in the same way; the model uses unbounded integers.
- Floating point: times and levels are reals, and rounding of `qreal` arithmetic is not modelled.
- Listeners: listener lookup and Qt signal connections are not modelled. Monitor and unmonitor requests are kept as a ghost log. The connections `start()` makes, duplicates included, are not modelled, nor is the `update()` repaint request.
- ScopeWidgets.ScopeWidget.DataReady: the sender's universe and the fine byte it holds at address + 1 are parameters, because the handler reads them from the emitting listener.
- The class header, which defines RING_BUF_SIZE, is not part of this model. The model fixes the ring capacity at 50, and its proofs use only that the capacity is positive. A new channel is taken to start enabled. The channel colour is left out.
- ScopeChannels.ScopeChannel.GetPoint: requires 0 <= index as well as index < count. The source asserts only index < count and computes the slot with C++'s truncating `%`. The model does not promise what negative indices read, because the only caller, the paint loop, passes indices from 0 upward.
- ScopeWidgets.ScopeWidget.AddChannel: requires the added channel to be valid and to have storage distinct from every other listed channel. Separate C++ objects never share their inline arrays.
- The listener's own ordering of notifications and any concurrency between ingest and painting are not modelled; each handler call is atomic.
- Disabled channels: one might expect them to ignore notifications, but dataReady has no enabled test and routes to them as well. The model follows the code, so disabled channels are only skipped when painting.
- ScopeIngest.Step: a channel object the history map does not track is left alone. The widget always tracks every listed channel.
- Preferences: building the interface list, the address strings and the persistence of preferences are not modelled. Accept returns the new preferences as a value instead of calling the setters, and the restart message box becomes the returned flag.
- PreferencesDialog.CheckFormat: the dialog's layout file is not part of this model, so radio-button exclusivity is not modelled. Its first four clauses take `setChecked(true)` to leave the other radios as they were. The round trip is stated from no radio checked, where both readings agree.
- PreferencesDialog.DisplayFormat: the enum's numeric values are not part of this model. The literal 0 the accept handler starts from is represented as `Unset`, a value distinct from every format. If the header gives `DECIMAL` the value 0, then `Unset` is `Decimal` in the source: accepting with no radio checked stores Decimal, and a stored 0 checks the Decimal radio, where the model's `CheckFormat(Unset)` checks none.
- PreferencesDialog.TimeoutRoundTrip: the spin boxes' ranges come from the dialog's layout file, so their ranges and `setValue`'s clamping to them are not modelled. The round trip assumes each part of the split fits its box; with Qt's default maximum of 99 hours, a timeout of 100 hours or more would come back smaller.

## Findings

| source | as written | input that shows it | evidently intended | confidence | as-written member | corrected member |
|---|---|---|---|---|---|---|
| src/scopewidget.cpp:280-285 | `p.setY(...)` rewrites the handler's own point, so every later matching channel in the same pass combines the already-scaled level again | two distinct eight-bit channels on universe 1, address 1, both cleared; a notification at time 100 with coarse level 200 and timebase 10: the first stores 51000, the second 13005000 | every matching channel stores the notification's coarse level * 255 (+ fine), so levels stay in 0..65280 | high, not executed | ScopeIngest.CarriedLevelCounterexample | ScopeIngest.IntendedPassPerChannel |
