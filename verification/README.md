# GodwinMix, modelled

A Dafny model of the concurrent and byte-level parts of GodwinMix: how a transparent
web page reaches the mixer as pictures, how a source plugin streams Matroska, how a
page is driven and told its state, how a desktop window keeps one mixer running, how
the browser's sound is stamped and its pixels are recovered, and how the protocol's
schemas become TypeScript. `dafny verify dfyconfig.toml` checks all of it.

## What is modelled

**Graphic mode's sender** (`area`, `pixels`, `wire`, `i420`, `graphic*`). The browser
paints rectangles into a mirror under a lock. A writer thread takes the dirty box in
one hold of the lock, copies the pixels as they are in a later one, and writes a frame
outside it: a GMXF frame with the tight box around what can be seen, or a GMXP patch
inside the last box. A resize is two holds with a gap between them. Each hold is one
step; a run is any sequence of steps. The other end is the mixer's own reader, byte for
byte. What one hold of `paint` puts into the mirror and marks is stated pixel by pixel
(`PaintIsTaken`, `ResizeIsTaken`). The main results: in every run the mixer's picture agrees with the page at every
pixel that is neither pending nor taken (`EveryRun`, through `StepKeepsInv`); with
nothing pending it is, box and bytes, the picture of the whole page (`RefinesWholePage`);
the remembered box is always the least box around what the mixer shows
(`ShownIsTheTightBox`); a resize is sent whole, whatever is painted around it
(`ResizeIsSentWhole`); and the writer catches up from exactly those states in which what
it holds can still be copied (`CatchesUp`). Three things the code does not keep are stated
exactly: a page wider or higher than 8192 is refused by the mixer (`ParseHeader`), an
empty page is never sent (`EmptyPageKeepsThePicture`), and a run ends in a panic exactly
when a copy is of a box that the page, shrunk since the take, ends before
(`CrashesExactly`, with `ShrinkCrashes` a run that does). In the mode for a design that
covers the picture, nothing panics and the mixer has the design of the page
(`EveryDesignRun`); at an odd width the rows are cut at the wrong stride, exactly when
`OwnPixelsExactly` says.

**The Matroska templates** (`ebml`, `matroska*`). The Go writer as functions and as a
class over its package variables, and a reader that shares nothing with them: written
from RFC 8794 sections 4 to 7 and RFC 9559 sections 5.1 and 10, with the element IDs as
those print them, and Segment and Clusters of unknown size. For any list of
starts and stops the reader gets back the header and every frame's millisecond and
bytes, in order (`EveryStreamReads`). The Node and Python writers go on in the old
Cluster after a restart: their restarted run is written whole exactly when that
Cluster began in the first 32768 ms, and else not at all (`RestartReadsExactly`), so a
plugin stopped after 36 frames at one a second stays silent however often it is started
(`SilentForGood`, `StoppedForGood`). Their frame size is the Go template's exactly when
both sides are even (`SizesAgreeExactly`). No template writes the header again, so the
recorded frames were drawn for the sides and the rate the track names exactly when no
start that wrote one had others (`TrackFitsExactly`; `SecondCanvasMisfits` are two that had).

**The page's two control channels** (`page_*`, `mailbox*`). The queue with its "drain
posted" flag, and the newest-state mailbox with its "page loaded" flag, each as the
steps of a reader thread and CEF's UI thread (`WholeRun`, `Settles`, `NewestWins`), and
what each command asks of the page after any others (`PressesAreTold` and those beside it).
The functions on the shared statics are methods, whole, with the other thread at work between
any two of their sections: what each has brought about when it returns is its contract.

**The desktop shell** (`lifecycle*`, `startup`). Restarts, exits, crashes, any number of
connects, and quits interleave between their waits (`AMinuteApart`). There is at most one
mixer as long as no connect begins beside a restart, a quit or another connect, and no
restart beside a connect (`AtMostOneMixer`); the code keeps none of these four apart, and
for each a run shows two mixers (`ConnectBesideARestart`, `RestartBesideAConnect`,
`ConnectBesideAConnect`, `ConnectBesideAQuit`). After a crash of the mixer on the air a
restart begins exactly when the flag is down and there is a task, the crash's own or one
from before (`CrashBeginsExactly`, `CrashComesBackExactly`), and an exit that asks for a
restart is always given one (`AskedExit`, `AskedComesBackExactly`); a crash right after a
restart, while the flag is still up, is recorded as answered and dropped
(`AnsweredAndDropped`). In any run at all there are never two mixers exactly when none is
started while one runs (`NeverTwoExactly`). A quit leaves no mixer behind exactly when it
does not begin while a restart has the old mixer and no new one yet, or beside a connect;
a second quit ends the app while the first is still stopping the mixer
(`QuitLeavesNothingExactly`, `QuitTwice`, `QuitBesideARestart`). The shell's functions are
methods, whole, with the other tasks' steps wherever they wait.

**The evaluation suite** (`grader`, `tracker*`). Replaying the source deltas of a log on
the baseline status gives the final status, and no source goes to the state it is in
(`DeltasReplay`); those of outputs, gains, mutes and the break lead from the state at the
mark to the one at the end, change by change (`DeltasLead`); the grade is clean exactly when every subject went through what was
expected, and raises exactly when one that differs has a state that is no text (`Grade`);
the runs that keep the order within every subject are those that swaps of neighbours of
different subjects lead to, and they are graded alike (`SameOrdersExactly`,
`ShuffleKeepsVerdict`).

**Plugin seeding, the import closure and the WebSocket script** (`seeding`, `closure`,
`websocket`). Over any launches the operator's copies are never touched and all of a
bundle is there exactly when it can be (`EveryLaunch`, `AllThereExactly`), with the files
of the last launch exactly when stamps tell builds apart (`StampsTellExactly`); the worklist
finds every library reached and nothing else (`Libraries`); any list of texts is read
back through mask, lengths and any cutting of the stream (`Reader.ReadTexts`).

**Sound and pixels of a streamed page** (`audio_clock`, `recover`). The first packet's
anchor is kept exactly while Chromium's times stay within 66 ms of the sample count
(`SteadyClock`), which they do for a stream on time that lands at zero or later and, with
an audio offset that puts it before zero, do not (`OnTimeIsSteady`, `EarlyIsNotSteady`,
`BothAtZero`). **The TypeScript generator** (`typescript*`, `ts_literal`): every value a schema lets through is admitted
by the type written for it (`Included`), and exactly what each type admits is stated by
its kinds and parts (`KindsAdmitExactly`, `PartsAdmitExactly`), literals being what their
emitted text reads back as. A string literal reads back exactly when it has no backslash and no line break
(`LiteralExactly`), so an enum or a const keeps its values exactly when its strings have
neither (`EnumExactly`, `ConstExactly`; `BackslashIsLost`). A property's key names it
exactly when its name has no quote, backslash or line break (`KeyExactly`,
`RequiredKeyExactly`), and a named type with properties admits all its schema does exactly
when that is objects only and no member, by the name its key reads as, refuses any
(`InterfaceExactly`, `KeyedInterfaceExactly`).

## How it is modelled

- Pixel buffers are sequences or arrays of 4-byte pixels; every offset in the code is a
  multiple of four. Sides are 32-bit signed and not negative: a negative one makes
  `i32::clamp` panic. Corners and byte counts are unbounded integers.
- A frame is written whole or, when the pipe has gone, not at all and for the last time.
- A panic under the lock ends the run: the lock is poisoned and every later paint panics.
- Threads and tasks take their steps in any order; nothing is assumed about fairness.
  `CatchesUp` and `Settles` say how the machines come to rest by their own steps.
- The clock readings of one pass of a loop are taken as one.
- Histories (lines so far, calls made, crashes answered) are fields of the state.
- Division of the millisecond clocks follows the source: Go, JavaScript and Rust agree
  on operands that are not negative, and `Recover.Towards0` is Rust's on those that are.
- Shares of a page and JSON numbers are real; rounding of floating point is not modelled.
- The reader of a string literal and of a quoted key is the StringLiteral production of
  ECMA-262.

## Where the code and its comments part

- tauri-app/src/revive.rs:8-10 says an exit the app did not cause is answered with a
  restart; the restart is dropped when one is still going on (`AnsweredAndDropped`).
- tauri-app/src/restart.rs:34-35 says a second mixer is not started beside the first; that
  holds among restarts, and not beside a connect (`ConnectBesideARestart`,
  `RestartBesideAConnect`).
- tauri-app/src/commands.rs:77-78 says a local connect finds the one mixer running under
  this app or starts one; two connects, or one beside a quit, can each start theirs
  (`ConnectBesideAConnect`, `ConnectBesideAQuit`).
- templates/go/main.go:334-336 opens a Cluster at a restart because PTS goes back to zero;
  templates/node/main.js:223-224 and templates/python/main.py:132-132 set PTS back and do
  not (`RestartReadsExactly`).
- clients/gen/ts.py:100-101 escapes quotes and nothing else (`LiteralExactly`, `EnumExactly`),
  and clients/gen/ts.py:95-96 puts a name between quotes and escapes nothing
  (`KeyExactly`, `RequiredKeyExactly`).
- tauri-app/src/sidecar.rs:185-187 says the app must not leave while its own daemon runs; it
  does after a second quit and after one beside a restart (`QuitTwice`, `QuitBesideARestart`).
- tauri-app/src/plugins.rs:206-207 says a stamp is enough to notice the same version rebuilt;
  a rebuild of as many files and bytes, its newest of the same second, is not noticed
  (`RebuildIsLost`).

## Model

| member | source | states |
|---|---|---|
| Areas.UnionIsLeast | browser/src/area.rs:17-28 | the union has every pixel of both boxes and lies in any box that does |
| Areas.ClampKeepsThePage | browser/src/area.rs:29-34 | clamping keeps exactly the pixels on the page, and a box on the page as it is |
| Areas.TightIsUnique | browser/src/pixels.rs:17-34 | there is one smallest box around what can be seen |
| Rasters.BlitPixel | browser/src/graphic.rs:84-89 | copying rows changes exactly the pixels of the box, to the source's pixels there |
| Rasters.BlitInto | browser/src/graphic.rs:84-89 | the in-place row loop leaves the array as the copy function says |
| Pixels.CopyShows | browser/src/pixels.rs:8-15 | the copy has the page's pixel at every place of the area, and its size |
| Pixels.CopyAreaOut | browser/src/pixels.rs:8-15 | the loop over rows copies the area |
| Pixels.ContentOf | browser/src/pixels.rs:18-34 | the scan with running bounds finds the box |
| Pixels.ContentIsTight | browser/src/pixels.rs:18-34 | that box is the tight one: every visible pixel is in it and each edge has one |
| Pixels.EncodeAs | browser/src/pixels.rs:47-62 | the loops write the header and the box's pixels, converted |
| Pixels.StraightUndoes | browser/src/pixels.rs:69-69 | a premultiplied channel comes back as what it was multiplied from, rounded down |
| Pixels.ConversionIsBt709 | browser/src/pixels.rs:72-76 | the fixed-point luma and chroma are BT.709's to within a step, and the limits never bite |
| Pixels.AyuvIsBt709 | browser/src/pixels.rs:64-77 | so are a pixel's four bytes for its straight colour, in their order |
| Pixels.ClearIsBlack | browser/src/pixels.rs:64-70 | a pixel that cannot be seen is black, and any keeps its alpha |
| Feed.ParseHeader | crates/godwinmix-core/src/plugin/kinds/html/wire.rs:14-22 | a written header reads back, exactly for pages up to 8192 a side |
| Feed.Apply | crates/godwinmix-core/src/plugin/kinds/html/wire.rs:26-37 | a patch is copied into the held box in place, or refused and nothing changes |
| Feed.FitsExactly | crates/godwinmix-core/src/plugin/kinds/html/wire.rs:26-32 | a patch is taken exactly when the held box has all its pixels |
| Feed.PatchShows | crates/godwinmix-core/src/plugin/kinds/html/wire.rs:26-37 | the box then has the patch's pixels where the patch is and its own elsewhere |
| Feed.Read | crates/godwinmix-core/src/plugin/kinds/html/frames.rs:79-118 | the reading loop has what the whole frames of the pipe add up to, and what is left over |
| Feed.AnyChunking | crates/godwinmix-core/src/plugin/kinds/html/frames.rs:79-118 | how the pipe cuts the stream makes no difference |
| Feed.FrameReceived | crates/godwinmix-core/src/plugin/kinds/html/frames.rs:79-118 | a frame the mixer allows is received whole, with nothing left over |
| Graphic.ContentSlices | browser/src/pixels.rs:47-62 | the tight box can always be sliced out of the region, so the encoder never reads out of range |
| GraphicProof.PaintShows | browser/src/graphic.rs:84-90 | painting changes exactly the pixels of the painted rectangles, to what was painted |
| GraphicProof.PaintIsTaken | browser/src/graphic.rs:68-93 | one hold of `paint` takes every pixel of every rectangle painted on the page and marks it, leaves every other as it was, and marks no more than a box around what was pending and painted |
| GraphicProof.ResizeIsTaken | browser/src/graphic.rs:68-82 | with another size all of the page is blank and pending, and too few pixels change nothing |
| GraphicProof.PaintedKeeps | browser/src/graphic.rs:68-93 | a paint or a resize keeps every pixel agreed on that it does not mark dirty |
| GraphicProof.FrameIsTheArea | browser/src/graphic.rs:114-118 | a GMXF frame shows the area as it is, and nothing outside its box can be seen |
| GraphicProof.WholeKeepsInv | browser/src/graphic.rs:110-118 | a GMXF frame brings the mixer to the page at the copied box |
| GraphicProof.PatchKeepsTight | browser/src/pixels.rs:37-39 | a patch that keeps off all four edges leaves the tight box what it was |
| GraphicProof.PartKeepsInv | browser/src/graphic.rs:107-109 | a GMXP patch brings the mixer to the page at the patch and changes nothing else |
| GraphicProof.StepKeepsInv | browser/src/graphic.rs:68-143 | every step of either thread keeps the invariant |
| GraphicRuns.EveryRun | browser/src/graphic.rs:68-143 | so does every interleaving: what the mixer shows is the page outside the pending and taken boxes |
| GraphicRuns.RefinesWholePage | browser/src/graphic.rs:100-122 | with nothing pending the mixer's picture is the one of the whole page sent at once |
| GraphicRuns.SameLookSamePicture | browser/src/pixels.rs:17-34 | tight pictures that look the same are the same box and bytes |
| GraphicRuns.ShownIsTheTightBox | browser/src/graphic.rs:101-118 | between messages `shown` is the least box around what the mixer shows |
| GraphicRuns.WholeIsNoPatch | browser/src/graphic.rs:107-118 | a page taken whole goes out as GMXF, never as a patch |
| GraphicRuns.ResizeStaysWhole | browser/src/graphic.rs:75-81 | a resize stays pending whole over any run up to the take |
| GraphicRuns.ResizeIsSentWhole | browser/src/graphic.rs:75-118 | and, whatever is painted up to the take and up to the copy, the next frame is a GMXF unless the copy panics |
| GraphicRuns.EmptyPageKeepsThePicture | browser/src/graphic.rs:128-130 | with nothing pending the picture is right exactly when the page has pixels or nothing was shown |
| GraphicRuns.ShrinkIsNotTaken | browser/src/graphic.rs:75-81 | a page that shrinks to nothing leaves the writer waiting |
| GraphicRuns.EmptyPageIsNotSent | browser/src/graphic.rs:128-130 | so the last picture stays up where the empty page shows none |
| GraphicRuns.StoppedForGood | browser/src/graphic.rs:126-137 | once it is to stop, a waiting writer writes nothing more and its next look ends it |
| GraphicRuns.StopOrFailedWrite | browser/src/graphic.rs:119-137 | a write that fails ends the writer, and an ended one does nothing |
| GraphicRuns.CatchesUp | browser/src/graphic.rs:100-122 | five writer steps bring the mixer to the page as it is, from a live state, exactly when what is taken can still be copied |
| GraphicRuns.PanicsExactly | browser/src/graphic.rs:140-143 | the copy panics exactly when its last row ends past the page's last pixel |
| GraphicRuns.ResizePanicsExactly | browser/src/graphic.rs:75-81 | a resize between take and copy panics exactly when the new page ends before what was taken |
| GraphicRuns.CrashesExactly | browser/src/graphic.rs:68-143 | a run ends in a panic exactly when some copy in it is of a box the page, as it then is, ends before |
| GraphicRuns.ShrinkCrashes | browser/src/graphic.rs:75-143 | such a run, on a page of any size: paint the last row, take, shrink by it, copy |
| GraphicDesign.EveryDesignRun | browser/src/graphic.rs:104-106 | sending the whole page as I420 never panics, and when quiet the mixer has the page's design |
| I420.NeverOutOfRange | browser/src/pixels.rs:81-118 | every sample read lies on the page |
| I420.PlaneSample | browser/src/pixels.rs:92-116 | each plane has the sample of its pixel, or of its square of four, at its place |
| I420.LumaIsThere | browser/src/pixels.rs:93-98 | every luma byte is of its own pixel, at its place |
| I420.ChromaIsThere | browser/src/pixels.rs:99-116 | every byte of the two chroma planes, blue's first, is of its square of four |
| I420.MeanIsOfFour | browser/src/pixels.rs:99-112 | the mean is of all four pixels, rounded down |
| I420.SamplesAreBt709 | browser/src/pixels.rs:92-116 | and they are BT.709's luma and chromas of the pixel and of the square's mean |
| I420.OwnPixelsExactly | browser/src/pixels.rs:82-83 | every output row is of its own page row exactly for the widths and heights named |
| I420.OddWidthSkews | browser/src/pixels.rs:82-83 | a page of odd width for which it is not |
| I420.EncodeI420Out | browser/src/pixels.rs:81-118 | the plane loops write what the planes' functions say |
| GraphicOut.Out.Paint | browser/src/graphic.rs:68-93 | one hold of `paint` on the shared object is one step, and says when to paint again |
| GraphicOut.Out.NextDirty | browser/src/graphic.rs:126-137 | one look for a dirty box is one step |
| GraphicOut.Out.CopyFrame | browser/src/graphic.rs:100-143 | the copy and the frame made of it are one step |
| GraphicOut.Out.WriteFrame | browser/src/graphic.rs:119-121 | writing the frame is one step |
| Ebml.GoVint | templates/go/main.go:205-217 | the bit-or loop writes the size's one form |
| Ebml.NodeVint | templates/node/main.js:98-114 | the division loop writes the same bytes |
| Ebml.VintReads | templates/go/main.go:205-217 | a size reads back from any continuation, is never the reserved one, and no shorter form would hold it |
| Ebml.UnknownReads | templates/go/main.go:266-281 | the Segment's and Clusters' size reads as unknown |
| Ebml.GoUint | templates/go/main.go:220-228 | the loop that drops leading zeros |
| Ebml.UintReads | templates/go/main.go:220-228 | an unsigned integer reads back and has no leading zero byte |
| Ebml.ElementReads | templates/go/main.go:245-247 | an element reads back from any continuation of the stream |
| Ebml.ChildrenRead | templates/go/main.go:236-247 | so does a list of them, as its own elements |
| Ebml.ElementsAreUnique | templates/go/main.go:236-247 | no two lists of elements have the same bytes |
| MatroskaProof.HeaderReads | templates/go/main.go:262-294 | Info and the one track read back: names, scale, size, rate and format |
| MatroskaProof.HeaderIds | templates/go/main.go:47-57 | the elements around the track have the IDs of RFC 8794 section 11.2 and RFC 9559 section 5.1 |
| MatroskaProof.TrackIds | templates/go/main.go:58-70 | so have those of the track, the Clusters and the blocks |
| MatroskaProof.OpeningReads | templates/go/main.go:262-294 | the EBML header and the endless Segment are read, then what follows |
| MatroskaProof.BlockReadsExactly | templates/go/main.go:310-317 | a block's time reads back exactly when its place fits a signed 16-bit integer; its track, flag and bytes always |
| MatroskaRuns.FramedAgrees | templates/go/main.go:298-321 | a frame whose place fits is read at its own millisecond, in a new Cluster or the open one |
| MatroskaRuns.RunReads | templates/go/main.go:326-370 | a run's frames are read at their milliseconds, in order, with their bytes |
| MatroskaRuns.MsIsOnTime | templates/go/main.go:328-341 | a frame's millisecond is never late, and early by less than a millisecond and a nanosecond a frame |
| MatroskaRuns.OffsetsFit | templates/go/main.go:298-312 | after a run opens its own Cluster every place is in 0..1999 |
| MatroskaRuns.EveryStreamReads | templates/go/main.go:262-436 | for any list of starts the stream is nothing or reads back as one header and every run's frames |
| MatroskaRuns.FramesFitExactly | templates/go/main.go:410-436 | every recorded frame has a given number of bytes exactly when every start that wrote one had a canvas of that many |
| MatroskaRuns.TrackFitsExactly | templates/go/main.go:410-436 | every recorded frame was drawn for the sides and rate of a track exactly when every start that wrote one had them |
| MatroskaRuns.SecondCanvasMisfits | templates/go/main.go:410-436 | of two starts on canvases of different frame sizes the second's frame does not fit the one header |
| MatroskaTwins.RestartReadsExactly | templates/node/main.js:164-176 | a restarted run is written whole exactly when the open Cluster began by 32768 ms, and what is written reads back |
| MatroskaTwins.EarlyRestartSends | templates/python/main.py:112-121 | then every frame goes out |
| MatroskaTwins.LateRestartSends | templates/python/main.py:112-121 | otherwise the first frame is refused and the run ends |
| MatroskaTwins.SilentForGood | templates/node/main.js:185-228 | with a Cluster open that began past 32768 ms no later run, of any canvas, sends a frame or writes a byte |
| MatroskaTwins.StoppedForGood | templates/node/main.js:185-228 | so a plugin at one frame a second stopped after 36 frames never sends another over any later runs |
| MatroskaTwins.SizesAgreeExactly | templates/python/main.py:133-133 | the two frame sizes agree exactly when both sides are even |
| MatroskaPlugin.Plugin.WriteHeader | templates/go/main.go:262-294 | the header's bytes go out, element by element |
| MatroskaPlugin.Plugin.WriteFrame | templates/go/main.go:298-321 | the package variables and the output become what one frame makes of them |
| MatroskaPlugin.Plugin.Produce | templates/go/main.go:326-370 | the loop writes the frames up to the first of the wrong size |
| MatroskaPlugin.Plugin.OnStart | templates/go/main.go:410-436 | a start is refused, or takes its canvas, writes the header once, and runs |
| PageQueue.ToPixel | browser/src/page.rs:70-76 | a share lands on a pixel of the side, whatever number it is |
| PageProof.PixelOfShare | browser/src/page.rs:70-76 | the pixel is the one the share falls in, pinned to the first and the last, and the first for what is no number |
| PageProof.TakesPlace | browser/src/page_cef.rs:54-61 | a move in place of the move before it still leaves out only an overtaken move |
| PageProof.SameForThePage | browser/src/page_cef.rs:105-151 | leaving those out changes neither buttons and pointer nor any other call's place and modifiers |
| PageProof.HandIs | browser/src/page_cef.rs:105-137 | the buttons held are those pressed and not let go of since, and the point kept is the last there was |
| PageProof.DragsAreTold | browser/src/page_cef.rs:84-137 | a move is told as a drag with exactly those buttons, and a leave at that point |
| PageProof.PressesAreTold | browser/src/page_cef.rs:115-122 | a press is the focus, a move to its point and a click down, with the buttons pressed before it |
| PageProof.ReleasesAreTold | browser/src/page_cef.rs:123-127 | a release is a click up, with the buttons still pressed after it |
| PageProof.WheelsAreTold | browser/src/page_cef.rs:128-130 | a turn of the wheel is told with the buttons pressed and no modifiers |
| PageProof.KeysAreTold | browser/src/page_cef.rs:136-139 | a key is the focus and its press, with the modifiers and buttons |
| PageProof.TextsAreTold | browser/src/page_cef.rs:140-150 | a text is the focus and the text, and a navigation is itself |
| PageProof.WokenStays | browser/src/page_cef.rs:53-82 | the flag is up exactly while one drain is on its way, and what is queued will be seen |
| PageProof.AccountedStays | browser/src/page_cef.rs:53-82 | run, taken and queued commands are the lines given, thinned |
| PageProof.OnlyWithoutABrowser | browser/src/page_cef.rs:75-79 | lines are lost only by a drain that finds no browser |
| PageProof.WholeRun | browser/src/page_cef.rs:53-151 | for every interleaving: no lost wake-up, one task at most, and when quiet every line has had its effect |
| PageProof.Settles | browser/src/page_cef.rs:53-82 | from any state the two threads come to rest by their own steps |
| PageChannel.Channel.Push | browser/src/page_cef.rs:54-61 | the locked section of `queue` is one step |
| PageChannel.Channel.Queue | browser/src/page_cef.rs:53-67 | with the UI thread at work anywhere in it: the line is added to those there have been, and if anything is queued one drain is on its way to it |
| PageChannel.Channel.Execute | browser/src/page_cef.rs:72-82 | with the reader at work anywhere in it: every line there was when it began has been run, thinned, and none lost; without a browser all are lost and the page told nothing |
| PageChannel.Channel.RunCmd | browser/src/page_cef.rs:105-151 | one command changes the held buttons and last point, and makes its calls |
| Mailbox.StepKeepsInv | browser/src/control.rs:46-124 | every step keeps: a loaded page has the newest line or is about to be given it, and states never go back |
| Mailbox.TrimTakesSpaces | browser/src/control.rs:52-52 | what is kept of a line is all of it between its leading and trailing spaces |
| Mailbox.KeptExactly | browser/src/control.rs:52-59 | a line is kept exactly when it then begins and ends with the two braces |
| Mailbox.TasksAreLines | browser/src/control.rs:59-61 | every line kept becomes one task, and every task is run once |
| Mailbox.LoadGives | browser/src/control.rs:84-106 | a page beginning to load has nothing, and one that has loaded is given the newest line |
| Mailbox.EveryRun | browser/src/control.rs:46-124 | so does every interleaving, across reloads |
| Mailbox.NewestWins | browser/src/control.rs:84-106 | loaded, no task pending and between lines, the page was last given the newest line or the empty state |
| Mailbox.OnlyGrows | browser/src/control.rs:46-66 | lines kept and states given are never taken back |
| Mailbox.Settles | browser/src/control.rs:109-124 | from any reachable state a loaded page comes to have the newest line |
| MailboxControl.Control.Listen | browser/src/control.rs:46-66 | whatever the UI thread does meanwhile, the lines that are objects are kept in order, trimmed, and the state is the newest of them |
| MailboxControl.Control.OnLoad | browser/src/control.rs:98-106 | whatever lines come meanwhile, the page is given one state, no older than the newest when it had loaded |
| MailboxControl.Control.Execute | browser/src/control.rs:109-124 | a loaded page is given one state, no older than the newest when the task began; another page nothing |
| LifecycleProof.OneStays | tauri-app/src/restart.rs:109-141 | every step kept apart as `Apart` says keeps the processes within the one that the holder, a connect or the quitter stands for |
| LifecycleProof.AtMostOneMixer | tauri-app/src/restart.rs:109-141 | in every run with no connect begun beside a restart, quit or other connect, and no restart beside a connect, there is at most one mixer |
| LifecycleQuit.NeverTwoExactly | tauri-app/src/restart.rs:109-141 | in any run, kept apart or not, there are never two mixers exactly when no spawn and no launch comes while one runs |
| LifecycleQuit.ApartNeverCrowds | tauri-app/src/restart.rs:109-141 | and none does in a run that is kept apart |
| LifecycleQuit.QuitLeavesNothingExactly | tauri-app/src/main.rs:191-218 | whatever goes on after a quit, the app leaves no mixer exactly when no restart was between taking the old one and holding the new, and no connect under way; with further quits, exactly when besides no mixer runs |
| LifecycleQuit.QuitTwice | tauri-app/src/close.rs:107-155 | a second quit ends the app with the mixer the first is stopping still running |
| LifecycleQuit.QuitBesideARestart | tauri-app/src/main.rs:191-218 | a quit that finds the mixer taken by a restart leaves at once and it runs on |
| LifecycleProof.OnlyTheHolderReplaces | tauri-app/src/restart.rs:118-136 | another mixer is held only by the hand of the task with the flag, or of a connect |
| LifecycleProof.AMinuteApart | tauri-app/src/revive.rs:53-85 | in every run crashes are answered at least a minute apart |
| LifecycleProof.CrashBeginsExactly | tauri-app/src/revive.rs:65-85 | whatever is pending, after a crash on the air the next swap begins a restart exactly when the flag was down and there was a task or no crash answered in the last minute |
| LifecycleProof.CrashComesBackExactly | tauri-app/src/restart.rs:109-136 | and after the holder's next steps one new mixer runs and is held exactly then, or when a restart had yet to take the old one; otherwise none runs |
| LifecycleProof.AnswersAgain | tauri-app/src/revive.rs:53-62 | a minute after a crash was answered another may be |
| LifecycleProof.ExitIsRead | tauri-app/src/sidecar.rs:301-309 | what any exit read does: 75, 76 and 77 are a task, any other but 0 of the mixer held a crash to decide on, and the rest nothing |
| LifecycleProof.AskedExit | tauri-app/src/sidecar.rs:304-307 | after an exit of the mixer on the air with one of those codes there is one task more, however recent the last crash |
| LifecycleProof.AskedComesBackExactly | tauri-app/src/restart.rs:73-92 | and one new mixer runs and is held, exactly unless a restart under way has its own or is about to let the flag down |
| LifecycleProof.TwoTries | tauri-app/src/restart.rs:128-135 | a restart starts a mixer twice at the most, and leaves none when both fail |
| LifecycleProof.FailedConnect | tauri-app/src/commands.rs:79-92 | a connect whose process does not start or answer is over, with none |
| LifecycleProof.AnsweredAndDropped | tauri-app/src/restart.rs:110-115 | a run in which an answered crash is dropped and no mixer is left |
| LifecycleProof.ConnectBesideARestart | tauri-app/src/commands.rs:79-92 | a run in which a connect beside a restart makes two mixers |
| LifecycleProof.RestartBesideAConnect | tauri-app/src/restart.rs:109-136 | so does a restart begun beside a connect |
| LifecycleProof.ConnectBesideAConnect | tauri-app/src/commands.rs:49-92 | so do two connects that both find the crashed mixer ended |
| LifecycleProof.ConnectBesideAQuit | tauri-app/src/main.rs:191-218 | so does a connect while a quit is stopping the old mixer |
| LifecycleShell.Shell.Terminated | tauri-app/src/revive.rs:65-85 | with others at work between the two locks, other crashes decided on among them, a crash is answered exactly when it was ours as read and none was answered in the minute before the decision; 75, 76 and 77 get a task at once |
| LifecycleShell.Shell.RestartWith | tauri-app/src/restart.rs:109-141 | with others at work at every wait: refused exactly when the flag was up, and else the flag is let down at the end; unless somebody quits it restarts exactly when a mixer was held and one of two starts has a process that answers, and its new mixer is held |
| LifecycleShell.Shell.StopHeld | tauri-app/src/sidecar.rs:169-190 | once the mixer taken out has been stopped there is none at all |
| LifecycleShell.Shell.StartOn | tauri-app/src/sidecar.rs:95-147 | a mixer that answers is the one held and the only one; without an answer there is none |
| LifecycleShell.Shell.LocalTarget | tauri-app/src/commands.rs:79-92 | the running mixer is answered as it is, or else a new one is started, and held exactly when it starts and answers; never a second when begun with no other under way |
| LifecycleShell.Shell.WindDown | tauri-app/src/main.rs:191-218 | a quit that ends the app has stopped the mixer it took, and leaves none at all if it began as the first, with no restart between mixers and no connect |
| Startup.WaitUntilAnswering | tauri-app/src/sidecar.rs:209-243 | the first pass that decides, with a deadline a timeout after the log last grew and the ceiling at most |
| Startup.BusyIsWaitedFor | tauri-app/src/sidecar.rs:217-224 | a mixer is given up on exactly at two minutes, or 25 seconds after the start and every growth of its log |
| AudioClock.SteadyClock | browser/src/mux.rs:111-120 | timestamps on one foreign clock are all shifted alike, wherever the first lands, and its anchor is kept exactly when they stay within 66 ms of the sample count |
| AudioClock.NextPacket | browser/src/mux.rs:339-373 | each packet keeps the anchor exactly when it is near the count, and else becomes the anchor where Chromium puts it |
| AudioClock.OnTimeIsSteady | browser/src/mux.rs:339-373 | a stream within 65 ms of the count that lands at zero or later stays near |
| AudioClock.EarlyIsNotSteady | browser/src/mux.rs:339-373 | one that lands more than 131 ms before zero does not, once it has gone on for 66 ms |
| AudioClock.BothAtZero | browser/src/mux.rs:339-373 | such a run: two packets of 200 ms, on time, both stamped 0 |
| AudioClock.SteadyPacketsMeet | browser/src/mux.rs:339-373 | in a run near the count consecutive packets meet within a nanosecond and none drifts from its exact time |
| AudioClock.CountedPacketsMeet | browser/src/mux.rs:354-368 | so do any two packets within 66 ms of the count |
| AudioClock.TimeIsRead | browser/src/mux.rs:105-126 | a timestamp within a day of now is Unix time, any other is shifted by what the first was off, and none is none |
| AudioClock.Untimed | browser/src/mux.rs:339-353 | a packet without one ends when it came |
| AudioClock.Muxer.AudioPacket | browser/src/mux.rs:339-373 | a packet changes the two locked values and is stamped as the clock says |
| Recover.UnpremultiplyTable | browser/src/mux.rs:142-152 | the table has the straight channel for every alpha and channel |
| Recover.TransparentPass | browser/src/mux.rs:260-307 | the pass over a frame of any size in place makes every pixel what one formula says |
| Recover.RestoredIsStraight | browser/src/mux.rs:142-152 | the table gives the straight colour graphic mode sends for the same pixel |
| Recover.UnkeyedIsStraight | browser/src/mux.rs:280-306 | with no key showing each channel is its straight colour and the alpha what it was |
| Recover.PureKeyIsClear | browser/src/mux.rs:280-284 | where next to nothing else shows only the alpha changes, to nothing |
| Recover.CoverageComesBack | browser/src/mux.rs:262-294 | where a grey was blended over the key the coverage read back is the one it had, or one more |
| Recover.GreyComesBack | browser/src/mux.rs:284-294 | and the grey comes back no brighter, and darker by no more than the roundings at that coverage |
| Recover.BlueAndRedComeBack | browser/src/mux.rs:285-290 | so do blue and red, which the key is made of, off by no more than the roundings |
| Grader.FilledAgrees | evals/run.py:594-595 | filling scheduled takes and comparing is agreeing with them as wildcards |
| Grader.Grade | evals/run.py:577-598 | a line for each subject that differs, once, and none exactly when all went through what was expected; each says what was expected and got, in the order the subjects come; it raises exactly when one that differs has a state that is no text |
| Grader.NeighboursMaySwap | evals/run.py:573-591 | two neighbours of different subjects may change places without any subject noticing |
| Grader.SwapKeepsVerdict | evals/run.py:577-598 | so the verdict is the same after such a swap |
| Grader.SameOrdersExactly | evals/run.py:573-591 | two runs keep the order within every subject exactly when swaps of neighbours of different subjects lead from one to the other |
| Grader.ShuffleKeepsVerdict | evals/run.py:577-598 | no such shuffle changes the verdict |
| TrackerProof.TracksEvent | evals/run.py:480-512 | every event's source deltas take the tracker's sources along, and never repeat |
| TrackerProof.StatusSets | evals/run.py:494-506 | a status leaves exactly the sources it lists, in the states it gives |
| TrackerProof.DeltasReplay | evals/run.py:547-570 | the deltas replayed on the baseline give the final status, whatever the log holds, and each takes its source to another state than it was in by then |
| TrackerTraces.DeltasLead | evals/run.py:547-570 | whatever the log holds, the deltas of every output, gain, mute and the break lead from its state at the mark to the one at the end, each of them a change |
| TrackerTraces.StatusIsHeld | evals/run.py:494-540 | after a status every source's sound, every output and the break are as it says |
| TrackerTraces.EventIsHeld | evals/run.py:484-489 | after an event so is what it is of, and of a source it is told exactly when it is news |
| TrackerTraces.ToldAtOnce | evals/run.py:480-493 | a take, a blocked hook and a command's parameters are told each time, and by no other record |
| TrackerTraces.ParamsAre | evals/run.py:468-478 | a command's parameters are told one by one under its name |
| TrackerObject.Tracker.Source | evals/run.py:508-512 | one source's state changes the dictionary and gives a delta if it is new |
| TrackerObject.Tracker.Status | evals/run.py:494-506 | a status is its sources, the ones gone, its outputs and its ad, in that order |
| TrackerObject.DeltasOf | evals/run.py:547-570 | the records before the mark only set the tracker |
| Seeding.SeedOneKeeps | tauri-app/src/plugins.rs:128-155 | one plugin is put in place without touching the operator's copies or other names |
| Seeding.AllThereExactly | tauri-app/src/plugins.rs:126-164 | all of a bundle is there exactly when no two of it share a name, or one of the two is the operator's |
| Seeding.EveryLaunch | tauri-app/src/plugins.rs:126-164 | over any launches: theirs untouched, one of ours a name, the last bundle there, and again changes nothing |
| Seeding.TwoVersionsLoseOne | tauri-app/src/plugins.rs:246-255 | of two versions in one bundle only the one read last is there |
| Seeding.UpToDateExactly | tauri-app/src/plugins.rs:126-164 | after a launch this app's copies have the bundle's files exactly when none was there with a stamp of the bundle and other files |
| Seeding.StampsTellExactly | tauri-app/src/plugins.rs:206-237 | over all runs of launches of some builds the last bundle's files end up in place exactly when builds of one stamp have the same files |
| Seeding.RebuildIsLost | tauri-app/src/plugins.rs:128-141 | of two builds with one stamp the second never comes in place |
| Seeding.Directory.SeedAll | tauri-app/src/plugins.rs:126-155 | the loop over the bundle makes of the directory what seeding it says |
| Seeding.Directory.PutInPlace | tauri-app/src/plugins.rs:128-155 | the directory becomes what seeding one plugin makes of it |
| Seeding.Directory.Retire | tauri-app/src/plugins.rs:246-255 | the loop takes away this app's other versions and nothing else |
| Closure.Libraries | dev/gst_trim.py:470-505 | the worklist ends with exactly the libraries reached, and every name that was not found |
| Closure.Look | dev/gst_trim.py:484-501 | one file's imports are all found, queued once, or missing |
| Closure.NameIsLast | dev/gst_trim.py:489-489 | a path's name is what follows its last separator |
| Closure.ClosedHasAll | dev/gst_trim.py:470-505 | a set closed under what its members need has all that is reached |
| WebSocket.MaskedTwice | dev/smoke_rpc.py:48-48 | masking again takes the mask off |
| WebSocket.MaskedBits | dev/smoke_rpc.py:48-48 | every bit is turned over where its byte of the mask, of four in turn, has a one |
| WebSocket.LengthReads | dev/smoke_rpc.py:49-55 | each of the three length forms reads back and is the shortest |
| WebSocket.TextReads | dev/smoke_rpc.py:45-56 | a text sent is read back from any continuation of the stream |
| WebSocket.PlainReads | dev/smoke_rpc.py:75-88 | an unmasked frame of a server is read back with its opcode, at each of the three lengths |
| WebSocket.AllTextsRead | dev/smoke_rpc.py:45-88 | the bytes of any list of texts parse as their frames, in order |
| WebSocket.Reader.Take | dev/smoke_rpc.py:66-73 | bytes are taken from what is pending, however it is cut into chunks |
| WebSocket.Reader.Next | dev/smoke_rpc.py:75-88 | so a frame depends only on the bytes, not on the chunks |
| WebSocket.Reader.ReadTexts | dev/smoke_rpc.py:58-88 | the reader gets any list of texts back, in order, however the socket cuts them, and leaves what follows |
| TypeScript.DropSeen | clients/gen/ts.py:45-51 | the loop keeps each alternative once, in the order they first come |
| TypeScriptProof.Included | clients/gen/ts.py:33-96 | every value a schema lets through is admitted by its type, through any chain of references, where its literals and keys read back |
| TypeScriptProof.KindsAdmitExactly | clients/gen/ts.py:52-80 | a type written from kinds admits exactly the values of the kinds named, their items and members by their own types |
| TypeScriptProof.PartsAdmitExactly | clients/gen/ts.py:33-53 | any other admits exactly what its reference, its list, its value or one of its alternatives does |
| TypeScriptProof.DeclaredAdmitsExactly | clients/gen/ts.py:134-148 | a named type admits what its interface or its type does |
| TypeScriptProof.EnumExactly | clients/gen/ts.py:39-42 | the type of an enum admits all its schema does exactly when none of its strings has a backslash or a line break |
| TypeScriptProof.ConstExactly | clients/gen/ts.py:39-42 | so does the type of a const |
| TypeScriptProof.BackslashIsLost | clients/gen/ts.py:99-106 | an enum of any one string with a backslash in it, which its type does not admit |
| TypeScriptProof.InterfaceAdmits | clients/gen/ts.py:134-148 | where keys read back, the interface for a named schema admits a value the schema lets through exactly when it is an object |
| TypeScriptProof.InterfaceExactly | clients/gen/ts.py:134-148 | it admits all of them exactly when nothing but objects gets through and, if any does, no member refuses one: what its key reads as is there when it must be, and the type admits what may be there |
| TypeScriptProof.KeyedInterfaceExactly | clients/gen/ts.py:134-148 | with keys that read back, exactly when nothing but objects gets past the schema's type, enum and const |
| TypeScriptProof.RequiredKeyExactly | clients/gen/ts.py:78-96 | the interface of one required property admits what its schema does exactly when the name has no quote, backslash or line break, and else refuses the object with that property alone |
| TsLiteral.LiteralExactly | clients/gen/ts.py:99-106 | a string's literal reads back as that string exactly when it has no backslash and no line break |
| TsLiteral.KeyExactly | clients/gen/ts.py:95-96 | a key names the property it was written for exactly when the name has no quote, no backslash and no line break |

## Left out

- CEF, GStreamer, Tauri, sockets and files: calls into them are steps, or values a step is given.
- Partial writes down a pipe: a frame or an element is written whole or the run is over.
- The rate at which the mixer remakes its overlay, and the Layer and Opaque objects behind it.
- `draw()`, timers and JSON-RPC in the plugin templates: a run is given the frames that were drawn before it was stopped.
- Pages of the Node and Python templates with no canvas or a rate below one, which those templates do not look for.
- `typed_char`, `wheel_delta` and the key events of one press: a key, a text or a wheel turn is one call carrying its command.
- A browser whose host is gone, which drops a command as a missing browser does.
- Mixers adopted from an earlier run of the app: they cannot be killed, and the code does not exclude a second one beside them.
- LifecycleProof.AtMostOneMixer: for runs in which no connect begins beside a restart, a quit or another connect and no restart beside a connect, because the code keeps none of these apart; ConnectBesideARestart, RestartBesideAConnect, ConnectBesideAConnect and ConnectBesideAQuit are the runs that show it.
- LifecycleShell.Shell.RestartWith: as in every method of the shell, the other tasks' steps are any that are kept apart in the same way and are not the method's own (its restart's, its connect's, its crash's decision, its quit's end).
- The window following a restarted mixer to another address, and the settings files.
- AudioClock.SteadyClock: for timestamps on a clock more than a day from Unix time; one packet on Unix time, or with none, is stamped as `Muxer.AudioPacket` says, and no whole run of them is considered.
- TypeScriptProof.Included: for schemas whose enum and const values are scalars, because arrays and objects are spelt as Python would, whose strings there have no backslash and no line break, because EnumExactly and ConstExactly show that the others are lost, and whose property names have besides no quote, because RequiredKeyExactly shows that; and for references of the form `#/$defs/Name`.
- TypeScriptProof.InterfaceExactly: for a named schema with no reference and no choice of its own, whose values depend on other schemas (InterfaceAdmits is for those too), and whose keys are one name each: a name with a quote ends its key early, and what TypeScript makes of the rest is not considered, nor two keys of one name.
- Schema keywords the generator does not read: a schema has none. Most only let less through; `prefixItems` lets through arrays whose first items the emitted type refuses.
- Names with letters outside ASCII that Python takes for identifiers: the generator leaves them bare and the model quotes them, which reads the same; and strings with lone surrogates.
- Layout of the emitted text (indentation, comments, `Array<T>` against `T[]`) and the names of generated types that clash with TypeScript globals.
- TrackerProof.DeltasReplay: for statuses whose sources have a name and a state, and states other than "removed", which the deltas use for a source that is gone.
- Decibels of a gain and the rendering of a command's parameters: the tracker is given them as text.
- Failing file operations while seeding, the refresh of plugins installed on first use, and the notes about the operator's copies.
- Symbolic links among libraries, and which directory of the prefix a name is found in: a name resolves to one path.
- The WebSocket handshake, and closing in the middle of a frame beyond that nothing is read.
- The base64 reader, and the Python and Rust type backends.
