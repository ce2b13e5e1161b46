# Kodi slideshow screensaver (screensaver.py), modelled in Dafny

The add-on shows pictures from the Kodi library or from a folder as a
screensaver, using one of five effect modes: TableDrop, StarWars,
RandomZoomIn, AppleTVLike and GridSwitch. `ScreensaverManager.__new__`
picks the mode class from the `mode` setting. Its `__init__` creates the
image controls and stacks them in the window. `start_loop` then cycles
through the shuffled images and the image controls: each pass calls the
mode's `process_image`, preloads the next image, and either counts a
warm-up image or waits `NEXT_IMAGE_TIME` in 500 ms chunks, reading
`exit_requested` before every chunk. The host's ExitMonitor calls `stop`,
which sets `exit_requested`.

The model has these modules:

- `Prelude`: options, results, the exceptions the code raises, and Python's
  integer operators that differ from Dafny's: subscription with negative
  indices (`PyIndex`), floored `//` and `%` (`FloorDiv`, `FloorMod`) and
  `** 2` (`Square`).
- `Cycle`: the replay generator `cycle`. The pure function `Yielded` gives
  its output, and the class `CycleGen` keeps the generator's state
  (`saved`, the position, and whether the first pass is over). During the
  first pass Python appends an element to `saved` when the generator
  resumes after yielding it; `CycleGen.Next` appends it in the same call
  that returns it. The outputs are the same; `saved` is one element ahead
  between two calls.
- `Shuffling`: `random.shuffle`, with its random draws as a parameter.
- `Sources`: `get_images` and the two list comprehensions that filter the
  JSON-RPC answer and the folder listing.
- `Dispatch`: the mode lookup of `__new__`.
- `Geometry`: the integer geometry every `process_image` variant gives a
  control, GridSwitch's grid, and AppleTVLike's depth widths and size order.
- `Scheduler`: the pure specification of the loop. `TurnSpec` is one pass,
  `Loop` the state after k passes, and `Clock` the timing alone (image
  count, exit flag, polls). The lemmas say what every pass did.
- `Screensavers`: the class `Screensaver`, whose methods update its fields
  as the Python object does (`StartLoop`, `Wait`, `Stop`, `DelControls`, the
  constructor and the `stack_cycle_controls` variants). `StartLoop` is
  proved against `Scheduler.Loop`.

The exit signal is a schedule `host: seq<bool>`. Every read of
`exit_requested` is one poll, and `host[p]` says whether `stop` had been
called before poll p. A poll past the end of the schedule sees the signal,
so every loop in the model ends.

Random draws are parameters: `order` for `random.shuffle`, `zooms` for
AppleTVLike's integer depth draws `int(betavariate(2, 2) * 40)` (0 to 40), `draws` for each pass's `randint` values, and `choice` for
`random.choice`. The Kodi calls (window, controls, JSON-RPC, directory
listing) are values. An image control is a record with an id. The window
field holds the ids of the image controls from bottom to top. The global
controls (background, loading indicator, preload control) are not in it:
the flag `globalControls` says whether they exist, and `preloaded` holds the
preload control's image.

The settings are the integers `int()` makes of them, negative ones included.
A negative GridSwitch size still gives N squared controls, which Python's
floored division lays out with negative widths and heights; the model uses
the same floored division (`FloorDiv`, `FloorMod`).

An empty image list makes the first `next()` of the url cycle raise
StopIteration. So does a mode with no image controls (GridSwitch with 0
rows) at the first draw of the control cycle. The model returns
`Raised(StopIteration)` in both cases, as the code does.

## Model

| member | source | states |
|---|---|---|
| Prelude.FloorDiv | screensaver.py:480-482 | Python's floored integer division: Dafny's `/` for a positive divisor, and for a negative one the quotient whose multiple lies at or above the dividend by less than the divisor's size |
| Prelude.FloorMod | screensaver.py:480 | the remainder of `divmod`: dividend = quotient * divisor + remainder, with the remainder strictly between the divisor and 0 (0 included) on the divisor's side |
| Prelude.Square | screensaver.py:472 | `N ** 2` is a natural number, 0 exactly for N = 0 |
| Prelude.PyIndex | screensaver.py:56 | Python subscription of a tuple (`MODES[i]`, and `SOURCES[i]` at line 154): negative indices count from the end, anything outside [-N, N) is an IndexError (None) |
| Cycle.CycleAt | screensaver.py:510-517 | output k of the generator on a non-empty input, input element k mod N; it is always one of the input's elements |
| Cycle.Yielded | screensaver.py:510-517 | the first n outputs, built as the generator builds them (one pass, then the saved copy again and again): n outputs for a non-empty input, none for an empty one |
| Cycle.YieldedAt | screensaver.py:510-517 | output k of the generator on a non-empty input is element k mod N of the input |
| Cycle.FirstPass | screensaver.py:512-514 | the generator first yields the whole input in order |
| Cycle.Periodic | screensaver.py:515-517 | after the first pass the output repeats with period N |
| Cycle.YieldedPrefix | screensaver.py:510-517 | asking for more outputs only extends the ones already yielded |
| Cycle.CycleGen.constructor | screensaver.py:510-511 | a new generator over the input is in its first pass and has yielded nothing |
| Cycle.CycleGen.Next | screensaver.py:510-517 | `next()` on an empty input yields nothing (StopIteration); otherwise the k-th call returns element k mod N, and the generator state stays consistent |
| Shuffling.Shuffle | screensaver.py:134 | the list `random.shuffle` leaves for its draws: from the last index down to 1, swap item i with the drawn item j <= i; the length is kept |
| Shuffling.ShufflePermutes | screensaver.py:134 | `random.shuffle` leaves a permutation of the list (as a multiset) |
| Shuffling.ShuffleIdentity | screensaver.py:134 | draws that always pick the current index leave the list unchanged |
| Sources.HasFanart | screensaver.py:180 | `element.get('fanart')` is truthy: the key is there and its string is not empty |
| Sources.Fanarts | screensaver.py:177-181 | the comprehension keeps at most as many strings as items, and none of them is empty |
| Sources.FanartsAppend | screensaver.py:177-181 | the fanart filter distributes over concatenation of item lists |
| Sources.FanartsMembers | screensaver.py:177-181 | a string is kept exactly when some item carries it as non-empty fanart |
| Sources.Items | screensaver.py:179 | `response.get('result', {}).get(prop, [])`: the items under the property, none when the result or the key is missing |
| Sources.JsonImages | screensaver.py:177-181 | `_get_json_images` returns exactly the non-empty fanart strings of the items under the property; a missing result gives none |
| Sources.Lower | screensaver.py:190 | `f.lower()` on a byte string: ASCII letters folded, every other character kept |
| Sources.LastThree | screensaver.py:190 | the slice `[-3:]`: the last three characters, or the whole name when it is shorter |
| Sources.IsImageName | screensaver.py:190 | the folder filter on a name: its lower-cased last three characters spell `jpg` or `png`, so a passing name has at least three characters |
| Sources.ImageNameSuffix | screensaver.py:190 | a file passes the test exactly when its name has at least 3 characters and its last three, lower-cased, are `jpg` or `png` |
| Sources.FolderImages | screensaver.py:186-191 | `_get_folder_images`: the names that pass the filter, each prefixed with the path, in listing order; never more than the files listed |
| Sources.FolderImagesAppend | screensaver.py:188-191 | the folder filter distributes over concatenation of listings |
| Sources.FolderImagesMembers | screensaver.py:188-191 | `path + f` is returned exactly when f is in the listing and passes the image test |
| Sources.Query | screensaver.py:155-160 | the JSON-RPC method and item property of each library source: movies, artists, albums |
| Sources.GetImages | screensaver.py:154-164 | `SOURCES[int(setting)]` picks the source (negative indices count from the end); indices 0, 2, 3 query movies, artists and albums; index 1 lists the folder; any other index raises IndexError |
| Dispatch.FindSubclass | screensaver.py:60-62 | the subclass search returns a class whose MODE is the name, or reports that no class carries it |
| Dispatch.SelectMode | screensaver.py:55-63 | `__new__`: index MODES (negative indices from the end), the drawn subclass for `Random`, else the subclass search; a selected class is always a subclass, and unless the name was `Random` its MODE is the indexed name |
| Dispatch.SelectModeTotal | screensaver.py:55-63 | `__new__` fails exactly when the index is outside MODES, and then with IndexError; the ValueError branch cannot be reached |
| Dispatch.SelectModeNamed | screensaver.py:55-63 | a named mode selects the class with that MODE; `Random` selects the drawn subclass |
| Geometry.GridTile | screensaver.py:479-484 | tile i of the grid: row and column from Python's floored `divmod(i, N)`, cell size from Python's floored `1280 / N` and `720 / N`, for any N other than 0 |
| Geometry.GridTileOnScreen | screensaver.py:479-484 | for N >= 1, every tile i < N * N lies on the 1280 x 720 screen |
| Geometry.GridTileNegative | screensaver.py:479-484 | for a negative N, every tile has a negative width and height at a non-negative position, so none is on the screen |
| Geometry.GridTilesDisjoint | screensaver.py:480-484 | two distinct tiles of the N x N grid never overlap |
| Geometry.GridLayout | screensaver.py:479-487 | the grid loop: control i gets the position and size of tile i; the list keeps its length |
| Geometry.GridLayoutNegative | screensaver.py:479-487 | with a negative N no control of the layout is on the screen, and each keeps its id |
| Geometry.GridLayoutTiles | screensaver.py:479-487 | every control of the grid layout lies on the 1280 x 720 screen, no two overlap, and only position and size change |
| Geometry.AspectHeight | screensaver.py:284 | the 16:9 height `int(width / image_aspect_ratio)` of a width (also at screensaver.py:437), in integers |
| Geometry.AspectHeightFloor | screensaver.py:284 | the height is the largest whole number within 9/16 of the width |
| Geometry.Restacks | screensaver.py:279-281 | the modes whose `process_image` removes and re-adds the control: TableDrop (279-281), StarWars (327-329) and RandomZoomIn (368-370), not AppleTVLike or GridSwitch |
| Geometry.GridPaint | screensaver.py:490-507 | GridSwitch fades the old image out and sleeps EFFECT_TIME exactly when `image_count >= FAST_IMAGE_COUNT`; it always ends with the fade-in of the new image and keeps the tile |
| Geometry.DepthWidth | screensaver.py:415-417 | `1280 / 100 * zoom` with zoom in [10, 50] is `12 * zoom`, an even width between 120 and 600 |
| Geometry.DepthWidths | screensaver.py:414-418 | each control changes only its width, which becomes 12 times its zoom (its draw plus 10): a multiple of 12 between 120 and 600 |
| Geometry.SortByWidth | screensaver.py:419-421 | `sorted` by width, as an insertion sort that puts each control behind those of equal width; the length is kept |
| Geometry.SortByWidthSpec | screensaver.py:419-421 | `sorted(..., key=width)` gives a permutation of the controls in ascending width |
| Geometry.AppleTVPaint | screensaver.py:435-441 | AppleTVLike keeps the control's width, sets y to 0 and centres the image on the drawn `center`; the image reaches onto the screen |
| Geometry.TableDropPaint | screensaver.py:283-286 | TableDrop's photo is 500 to 700 wide, has the 16:9 height (280 to 393) and lies wholly on the screen |
| Geometry.StarWarsPaint | screensaver.py:331-346 | StarWars places a full-size image at (0, 510) and shows it |
| Geometry.ZoomPaint | screensaver.py:372-388 | RandomZoomIn covers the screen and zooms in from the drawn point for EFFECT_TIME |
| Geometry.Render | screensaver.py:142 | `process_image` keeps the control's identity and sets the new image; every mode except GridSwitch shows it and does not sleep |
| Scheduler.Chunks | screensaver.py:221 | `NEXT_IMAGE_TIME / 500` is the number of whole 500 ms chunks in the pacing time (none for a negative time) |
| Scheduler.Waited | screensaver.py:219-225 | the outcome of `wait` from the flag, the next poll and the chunks left: a poll before each chunk, a stop at the first poll that sees the exit, else a sleep of the chunk |
| Scheduler.WaitedFacts | screensaver.py:219-225 | `wait` sleeps only while no exit is requested, sleeps every chunk unless it sees the request, polls once more only when it stops early, and sets the flag exactly when some poll saw the signal |
| Scheduler.PaceFacts | screensaver.py:145-148 | a warm-up pass neither sleeps nor polls; a waiting pass sleeps at most its pacing time, and all of it unless it sees the exit |
| Scheduler.Pace | screensaver.py:145-148 | the pacing of a pass: no sleep and no poll while the image count is below FAST_IMAGE_COUNT, else `wait` from the current flag and poll (its bounds are in PaceFacts) |
| Scheduler.Tock | screensaver.py:145-148 | the timing after one pass: the count climbs by one only during the warm-up, the pacing runs, then the loop test polls once and sees the exit if it was set or the host signalled |
| Scheduler.Clock | screensaver.py:139-148 | the timing after k passes, k steps of Tock from the start; ClockCount, ClockExit, ClockQuiet and ClockNext are proved about it |
| Scheduler.TurnSpec | screensaver.py:140-148 | one pass as a change of the loop state: `process_image` on the slot's control, restack for the modes that do, preload the next image, count a warm-up image or wait, then the loop test |
| Scheduler.Loop | screensaver.py:139-148 | the state after k passes, pass j on slot j mod N with image j: it keeps the number of controls, records k passes and has polled at least once |
| Scheduler.Without | screensaver.py:280 | `removeControl` leaves every other control and drops this one (membership; the order is in WithoutAt) |
| Scheduler.WithoutAbsent | screensaver.py:280 | removing a control the window does not hold leaves the window as it was |
| Scheduler.WithoutAppend | screensaver.py:280 | removal works control by control: it distributes over concatenation |
| Scheduler.WithoutAt | screensaver.py:280 | removing a control the window holds once leaves the controls below and above it in their order |
| Scheduler.Restack | screensaver.py:280-281 | remove then add puts the control on top and keeps every other control (membership; the order is in RestackAt) |
| Scheduler.RestackAt | screensaver.py:280-281 | restacking a control the window holds once keeps the order of all the others and puts it on top |
| Scheduler.LoopClock | screensaver.py:139-148 | the loop's image count, exit flag and polls depend only on the exit schedule, never on what the passes paint |
| Scheduler.RunningPrefix | screensaver.py:139 | a run that let k passes start let every earlier pass start, and none of those passes ended with the exit set |
| Scheduler.Advance | screensaver.py:139-148 | from the state after k passes, none stopped by the exit, pass k (slot k mod N, image k, preloading image k + 1) gives the state after k + 1 passes |
| Scheduler.LoopPrefix | screensaver.py:139-148 | later passes only append to the record of earlier ones |
| Scheduler.LoopTurn | screensaver.py:138-144 | pass j drew slot j mod N and image j, preloaded image j + 1, and ran `process_image` with the then-current image count on the control in that slot |
| Scheduler.LoopTiming | screensaver.py:145-148 | pass j saw the clock's image count, waited exactly when the warm-up was over, slept as its pacing did, and started right after the poll just taken |
| Scheduler.ClockCount | screensaver.py:145-146 | the image count climbs by one per pass until FAST_IMAGE_COUNT and then stays there |
| Scheduler.LoopControls | screensaver.py:141-142 | each slot holds the control as the last pass that drew it left it, or the initial one |
| Scheduler.LoopSlots | screensaver.py:136-141 | pass l drew slot l mod N of the control cycle |
| Scheduler.LoopNextControl | screensaver.py:136-142 | the slot pass j draws still holds its initial control in the first round, and afterwards what pass j - N painted there |
| Scheduler.LoopDrawn | screensaver.py:136-142 | the control cycle hands pass j its slot's initial control in the first round, and afterwards the control as pass j - N left it |
| Scheduler.LoopReuse | screensaver.py:141-142 | what pass j paints is `process_image` on the control as pass j - N left it (the initial one in the first round) |
| Scheduler.LoopPreload | screensaver.py:143-144 | the preload control holds the image after the last one rendered |
| Scheduler.LoopWindow | screensaver.py:280-281 | the modes that restack put the control just painted on top of the window; the others never touch the window |
| Scheduler.ClockExit | screensaver.py:139-148 | while no exit has been seen, every pass polls at least once, the flag is set exactly when some poll since the start saw the signal, and a run that goes on has not reached the end of the schedule |
| Scheduler.LoopExit | screensaver.py:139-148 | the same exit facts for the loop state after k passes |
| Scheduler.ClockQuiet | screensaver.py:219-225 | every pass of a run with no earlier exit sleeps only while no signal has come since the first loop test |
| Scheduler.ClockNext | screensaver.py:145-148 | a pass followed by another polls the loop test right after its sleeps, and sleeps its whole pacing time if it waited |
| Scheduler.LoopSleptQuiet | screensaver.py:219-225 | every recorded pass slept only while no exit signal had come since the first loop test |
| Scheduler.LoopNextPoll | screensaver.py:139-148 | each pass after the first starts right after the loop test and the sleeps of the pass before, and a waiting pass slept all of NEXT_IMAGE_TIME's chunks |
| Scheduler.GridWarmUp | screensaver.py:491-499 | GridSwitch fades out exactly on the passes after the first FAST_IMAGE_COUNT, which are exactly the passes that wait |
| Scheduler.ReusedControl | screensaver.py:136 | a control cycle over N slots hands pass k the initial control in the first round, and afterwards the control painted N passes earlier |
| Screensavers.ControlCount | screensaver.py:466-473 | IMAGE_CONTROL_COUNT of each mode (TableDrop 20 at line 254, StarWars 6 at 312, RandomZoomIn 7 at 352, AppleTVLike 35 at 394, GridSwitch N ** 2 at 466-473): a GridSwitch has no controls exactly when N is 0, every other mode has 6 to 35 |
| Screensavers.FastCount | screensaver.py:466-473 | FAST_IMAGE_COUNT of each mode (AppleTVLike 2, GridSwitch N ** 2, else 0): never more than the controls, and GridSwitch fills every control once before it waits |
| Screensavers.PacingTime | screensaver.py:469-470 | NEXT_IMAGE_TIME after `load_settings`: the class value 2800 for StarWars (line 313), which loads nothing, else the loaded wait (TableDrop 261, RandomZoomIn 357, AppleTVLike's computed value 404, GridSwitch 470) |
| Screensavers.EffectTime | screensaver.py:356-358 | EFFECT_TIME: loaded by RandomZoomIn (358), 500 for GridSwitch (464), unused by the other modes |
| Screensavers.Blank | screensaver.py:117-122 | the controls `init_cycle_controls` creates: as many as asked, with distinct ids, no image, size 0 x 0 and no animation |
| Screensavers.NextPair | screensaver.py:141-143 | the two `next()` calls of a pass: slot k mod N and image k + 1; with no controls StopIteration, and the url cycle is not touched |
| Screensavers.Screensaver.constructor | screensaver.py:83-98 | `__init__` sets the class constants, creates IMAGE_CONTROL_COUNT blank controls, and stacks them as the mode does (in order; grid then shuffle; sorted by depth then shuffle) |
| Screensavers.Screensaver.InitCycleControls | screensaver.py:117-122 | appends IMAGE_CONTROL_COUNT blank controls and changes nothing else |
| Screensavers.Screensaver.StackInOrder | screensaver.py:124-129 | adds the controls to the window in list order |
| Screensavers.Screensaver.LayoutGrid | screensaver.py:475-488 | places control i on grid tile i, then shuffles the list; the window is untouched |
| Screensavers.Screensaver.StackByDepth | screensaver.py:406-423 | gives each control its depth width, adds them to the window sorted by width, then shuffles the list |
| Screensavers.Screensaver.Stop | screensaver.py:227-230 | sets `exit_requested`, drops the exit monitor, and changes nothing else |
| Screensavers.Screensaver.PollExit | screensaver.py:139 | one read of `exit_requested` after the host could call `stop`: the flag becomes set when the schedule signals and is never cleared |
| Screensavers.Screensaver.Wait | screensaver.py:219-225 | the chunked wait loop does exactly what `Waited` prescribes from the current flag and poll |
| Screensavers.Screensaver.Turn | screensaver.py:140-148 | one loop body and loop test leave exactly the state `TurnSpec` prescribes |
| Screensavers.Screensaver.Pass | screensaver.py:139-148 | from the state after k passes of `Loop`, a pass reaches the state after k + 1 passes |
| Screensavers.Screensaver.RunLoop | screensaver.py:139-149 | the while loop ends in the state `Loop` gives for the passes made, stopping at the first pass that ends with the exit requested, or raises StopIteration when there are no controls; with no controls no pass runs, also when the exit is already requested |
| Screensavers.Screensaver.StartLoop | screensaver.py:131-149 | `start_loop` raises StopIteration exactly when there are no images, or no controls and no exit before the first test; otherwise it ends in the state `Loop` prescribes for the shuffled images, with the exit requested and no earlier pass having seen it; with no controls no pass runs, so the controls, window, image count and preloaded image stay as they were |
| Screensavers.Screensaver.DelControls | screensaver.py:232-241 | removes all image and global controls from the window and forgets them, the preload control (and so its image) included |

## Left out

- Kodi itself: window and control calls, `xbmc.log`, `xbmc.sleep` and `executeJSONRPC` are not modelled. Their effects on the modelled state are written out as record updates; the JSON-RPC answer and the directory listing are parameters.
- Sources.FolderImages: `xbmc.validatePath` (screensaver.py:189) is taken as the identity, so a kept file is `path + f` as written.
- `hide_loading_indicator` and `preload_image` only call Kodi. The model keeps the preloaded url and nothing about the loading or background controls.
- The ExitMonitor callback is asynchronous. It is modelled by the poll schedule `host`, so a `stop` between two reads of the flag is seen at the next read.
- The animation strings are kept as effect records with the integer values they carry: fade and zoom start and end, the drop's start height, StarWars' tilt (0 to 50 degrees) and slide (1100 to -1100 over 10400 ms), AppleTVLike's slide (720 to -720), the zoom centre and times. Tweens, `center=auto`, `delay=0`, the float rotation angle and time, the float drop time `drop_height * 1.5` and AppleTVLike's float slide time are not modelled.
- The random distributions (`randint`, `uniform`, `betavariate`, `choice`, `shuffle`) are not modelled; the model takes the drawn values as parameters within their ranges.
- The parsing of setting strings: `int(addon.getSetting(...))` for `mode` (screensaver.py:56), `source` (screensaver.py:154) and in every `load_settings` is not modelled. `SelectMode`, `GetImages` and `Settings` take the parsed integers, so the ValueError that `int()` raises on a string that is not an integer is not modelled.
- AppleTVLike's `load_settings` computes NEXT_IMAGE_TIME and MAX_TIME from the float settings SPEED and CONCURRENCY; the model takes the resulting NEXT_IMAGE_TIME as `Settings.wait` and has no MAX_TIME.
- Geometry.AspectHeight: `int(width / (16.0 / 9.0))` is computed in floating point; the model uses the integer `width * 9 / 16`. The two agree on every width the code gives it (500 to 700 in TableDrop, 120 to 600 in AppleTVLike); the model does not reason about floating point.
- Screensavers.NextPair: the code draws the next url after `process_image` and the model draws it before; the two cycles are independent, so the order is not visible in the state.
- Geometry.SortByWidthSpec: states the permutation and the ascending order, but not that `sorted` is stable (the function is stable by construction).
- Sources.Lower: folds only ASCII letters, as Python 2's `str.lower()` does; a `unicode` name would also fold other alphabets. That difference cannot change the image test, which compares with the ASCII strings `jpg` and `png` (no other character lower-cases to j, p, g or n).
- `removeControl` of a control that is not in the window raises in Kodi; `Scheduler.Without` removes nothing in that case.
- `__del__` (which calls `del_controls`) and the `__main__` block are not modelled; `DelControls` models the method itself.
