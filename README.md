# Aseprite animation playback, modelled in Dafny

`aseprite.py` defines a class `Animation` that plays back sprite-sheet animations exported by the
Aseprite editor. On construction it reads the editor's description of a sprite sheet and builds
three tables:

- a tag table: tag name to its index range `from`..`to` and its direction;
- a layer table: layer name to its opacity and blend mode;
- a frame table: layer to tag to frame index to the frame's atlas rectangle, trim offset, canvas
  size and duration.

Each frame is filed under the layer, tag and index spelled out in its label. The label grammar is
`_FRAME_PATTERN`, a word run, one whitespace character, a word run, one whitespace character, a
digit run, and any remainder. Labels of any other shape are skipped.

Playback state is the current layer, tag, frame index and the time spent on the current frame.
`change_layer` and `change_tag` move to frame 0 of another layer or tag and redraw.
`update(delta)` adds time and runs a catch-up loop: while the time spent reaches the duration,
it takes the duration off, advances the index (wrapping to 0 once the index exceeds `to - from`)
and redraws.

The project has five modules:

- `Wrappers`: `Option` and `Result`.
- `Labels`: the frame-label pattern as an explicit greedy scanner, proved equal to its
  grammar in both directions, plus the decimal reading of the index group.
- `Metadata`: the description datatypes and the three tables as functions of the description.
  The loops of `_parse` are methods proved to compute those functions: last write wins,
  rejected labels are ignored, and key order is the dictionaries' insertion order.
- `Playback`: the state machine as pure functions (`FrameAt`, `TagSpan`, `Render`,
  `SwitchLayer`, `SwitchTag`, `Pass`, `CatchUp`, `Advance`). Lemmas cover time conservation, the
  frame-index bound and period, the display invariant, a full cycle, and when two updates equal
  one.
- `Aseprite`: the class `Animation`. Its fields are the tables and the playback state. Its
  methods `ChangeLayer`, `ChangeTag`, `Update`, `StepFrame` (the body of `update`'s loop) and
  `CreateSurface` change the fields in place.
  Each method is proved to leave exactly the state the matching `Playback` function gives.
  `Update` keeps the source's `while` loop, and its invariant ties the remaining loop to
  `CatchUp`.

Time is counted in whole milliseconds. A KeyError from a missing frame becomes
`Failed(FrameNotFound(key))`, and one from a missing tag becomes `Failed(TagNotFound(name))`. Like
the source, a failing call keeps whatever fields it had already changed before the failing
lookup.

`update` reads the frame duration once, before its loop (`aseprite.py:155`). Every pass therefore
takes off the duration of the frame that was current on entry, even when the frames it moves
through last differently. The model follows the code. Two consequences are proved:

- `Playback.SplitUpdateDiffers` exhibits frames of 100 ms and 50 ms where `update(150)` and
  `update(100); update(50)` end on different frames.
- `Playback.UniformSplit` proves that splitting an update makes no difference when all frames
  of the tag last the same.

`get_tag_frame_length` returns `to - from`, which is one less than the number of frames the tag
cycles through. The index still covers every frame, because it wraps only once it exceeds that
value (`Playback.CycleLength`, `Playback.FullCycle`).

## Model

| member | source | states |
|---|---|---|
| Labels.Span | aseprite.py:7 | the greedy run of `\w+`/`\d+`: a prefix entirely of the class, followed by the end or by a character outside it |
| Labels.WordThenSpace | aseprite.py:7 | what `(\w+)\s` consumes: a non-empty word run and one whitespace character, the text being run, separator and remainder |
| Labels.DigitRun | aseprite.py:7 | what `(\d+)` consumes: a non-empty digit run not followed by another digit, the text being run and remainder |
| Labels.WordThenSpaceComplete | aseprite.py:7 | a word run followed by a whitespace character is always split off exactly, whatever follows |
| Labels.DigitRunComplete | aseprite.py:7 | a maximal digit run is always split off exactly |
| Labels.MatchLabel | aseprite.py:7 | a label the scanner accepts decomposes as word run, one whitespace, word run, one whitespace, maximal digit run, remainder |
| Labels.MatchLabelComplete | aseprite.py:7 | every such decomposition of a label is the one the scanner returns (the prefix match is deterministic) |
| Labels.MatchLabelIff | aseprite.py:7 | the scanner returns `m` exactly when the label decomposes as `m` |
| Labels.MatchLabelRejects | aseprite.py:64-65 | a label is rejected exactly when no decomposition of it exists |
| Labels.DecimalValue | aseprite.py:71 | `int()` of the index group: the digits read left to right, 0 exactly when every digit is '0' |
| Labels.KeyOf | aseprite.py:64-71 | a label is skipped exactly when no decomposition of it exists; an accepted one is filed under the decomposition's layer, tag and decimal index |
| Labels.DigitChar | aseprite.py:71 | the digit character written for a value below 10 reads back as that value |
| Labels.LeadingZero | aseprite.py:71 | `int()` ignores a leading zero, so "03" and "3" name the same index |
| Labels.Decimal | aseprite.py:71 | the decimal rendering of an index is a non-empty digit run |
| Labels.DecimalRoundTrip | aseprite.py:71 | reading the decimal rendering of an index gives the index back |
| Labels.LabelRoundTrip | aseprite.py:63-71 | the label "layer tag index" built from word-run names is filed under exactly that layer, tag and index |
| Metadata.Lookup | aseprite.py:75 | `frames[layer][tag][index]` finds an entry exactly when all three levels hold the key's part, and that entry is the one stored there |
| Metadata.Store | aseprite.py:67-71 | storing an entry makes it the one found under its key; the entry under every other key is unchanged; the layer keys gain only the entry's layer; no level becomes empty |
| Metadata.FramesPopulated | aseprite.py:67-71 | the frame table built by reading the labels in order never has an empty layer or tag level |
| Metadata.FramesBy | aseprite.py:63-71 | reading the labels in order, with any classifier, yields at most one layer per entry |
| Metadata.FrameTableOf | aseprite.py:63-71 | the frame table `_parse` builds has at most one layer per entry and no empty layer or tag level |
| Metadata.FramesAbsent | aseprite.py:63-71 | with any label classifier, a key is absent exactly when no label maps to it |
| Metadata.FramesLastWins | aseprite.py:71 | with any label classifier, the entry under a key is that of the last label mapping to it |
| Metadata.FramesSkip | aseprite.py:64-65 | with any label classifier, removing a skipped label leaves the whole table unchanged |
| Metadata.FrameTableAbsent | aseprite.py:63-71 | an index is absent from the frame table exactly when no label matching the pattern names it |
| Metadata.FrameTableLastWins | aseprite.py:71 | the entry under a layer, tag and index is that of the last label naming it; earlier ones are overwritten |
| Metadata.RejectedLabelIgnored | aseprite.py:64-65 | a label the pattern rejects contributes nothing: removing it leaves every layer, tag and index unchanged |
| Metadata.TableOf | aseprite.py:54-60 | the tag or layer table assigned entry by entry has every entry's name as a key |
| Metadata.KeyOrder | aseprite.py:54-60 | the dictionary key order lists each name once, and exactly the keys of the table |
| Metadata.TableKeys | aseprite.py:54-60 | a name is a key of the tag or layer table exactly when some entry carries it |
| Metadata.TableLastWins | aseprite.py:54-60 | the record under a name holds exactly the fields of the last entry with that name |
| Metadata.LoadTable | aseprite.py:54-60 | the `for` loop over `frameTags` or `layers` computes the last-write-wins table and its key order |
| Metadata.StoreFrame | aseprite.py:67-71 | creating the missing layer and tag dictionaries and assigning the entry gives the table `Store` specifies |
| Metadata.AddFrame | aseprite.py:64-71 | one pass of the frame loop stores the entry under the label's key when the pattern matches, and changes nothing otherwise |
| Metadata.LoadFrames | aseprite.py:63-71 | the frame loop computes the frame table of the labels in document order |
| Playback.ViewOf | aseprite.py:107-110 | the drawn geometry of an entry: its `frame` rectangle, its `spriteSourceSize` offset and its `sourceSize` canvas |
| Playback.NextIndex | aseprite.py:158-160 | one advance goes one index on or back to 0, and from an index inside the tag stays inside it |
| Playback.FrameAt | aseprite.py:73-75 | `_get_frame` succeeds exactly when the current layer, tag and index are stored, returns that entry, and otherwise raises for that key |
| Playback.TagSpan | aseprite.py:87-97 | `get_tag_frame_length` is `to - from` of the current tag, and raises exactly when the tag is unknown |
| Playback.CyclePeriod | aseprite.py:158-160 | from an index within the tag's span, `k` advances reach `(i + k) mod (span + 1)` |
| Playback.CycleLength | aseprite.py:87-97 | from frame 0 the indices run 1..span and the next advance returns to 0, so the tag cycles through `span + 1` frames |
| Playback.Render | aseprite.py:99-111 | drawing succeeds exactly when the current frame exists, and then shows that frame's geometry; on failure nothing changes; only the surface ever changes |
| Playback.SwitchLayer | aseprite.py:121-130 | with the same name nothing changes; with another, that layer at frame 0 with no time spent, the tag kept, drawn exactly when its frame 0 exists, raising for that key otherwise with the surface kept |
| Playback.SwitchTag | aseprite.py:132-141 | with the same name nothing changes; with another, that tag at frame 0 with no time spent, the layer kept, drawn exactly when its frame 0 exists, raising for that key otherwise with the surface kept |
| Playback.Pass | aseprite.py:157-163 | one pass of the loop keeps layer and tag and takes exactly the entry duration off the time spent |
| Playback.PassOutcome | aseprite.py:157-163 | a pass ends normally exactly when the tag is known and the frame it steps to exists; the index steps to the next of the tag, wrapping to 0 past `to - from`, or one on when the tag is unknown; a normal pass shows the new frame, a failing one keeps the surface and raises for the unknown tag or for the key of the frame it stepped to |
| Playback.PassShift | aseprite.py:157-163 | a pass does not depend on how much time is spent beyond the duration it takes off |
| Playback.CatchUp | aseprite.py:156-163 | the catch-up loop keeps layer and tag, and when it ends normally less than the duration read on entry remains |
| Playback.Advance | aseprite.py:147-163 | `update` keeps layer and tag; with no current frame it only adds the time and raises; when it ends normally less than the entry duration remains |
| Playback.CatchUpAccounting | aseprite.py:154-160 | each pass takes off exactly the entry duration: time before equals time after plus passes times that duration, and the index is the one that many advances give |
| Playback.UpdateAccounting | aseprite.py:154-160 | `update` conserves time (time before plus delta equals time after plus passes times the entry duration), and the index has advanced once per pass |
| Playback.UpdateWithoutCatchUp | aseprite.py:154-156 | when the time stays below the duration, `update` changes only the time spent |
| Playback.UpdateFrameBound | aseprite.py:158-160 | an index within `0..to-from` stays within it, at `(i + passes) mod (to - from + 1)` |
| Playback.CatchUpShows | aseprite.py:156-163 | a catch-up that ends normally made no pass or leaves the surface showing the frame it stopped at |
| Playback.UpdateKeepsShowing | aseprite.py:147-163 | after an `update` that ends normally, the surface still shows the current frame |
| Playback.UpdateByOneDuration | aseprite.py:147-163 | advancing by the current frame's duration from no time spent moves one frame on and leaves no time spent |
| Playback.CatchUpCompletes | aseprite.py:156-163 | on a tag with a frame at every index of its range, the catch-up loop never raises |
| Playback.FullCycle | aseprite.py:147-163 | with all frames lasting `d`, `update((span+1)*d + e)` from frame 0 passes every frame once and lands on frame 0 with `e` left |
| Playback.CatchUpShift | aseprite.py:156-163 | when the catch-up ends normally, adding time before it ends where catching up first and then continuing with that time does |
| Playback.UniformSplit | aseprite.py:147-163 | with all frames of the tag lasting the same, `update(a)` then `update(b)` ends where `update(a + b)` does |
| Playback.SplitUpdateDiffers | aseprite.py:155-158 | with frames of 100 ms and 50 ms, `update(150)` is at frame 1 but `update(100); update(50)` is at frame 0 |
| Aseprite.Animation.constructor | aseprite.py:13-36 | the tables are those of the description, the name lists their key orders, and the playback state is the default layer and tag at frame 0 with no time spent |
| Aseprite.Animation.Load | aseprite.py:13-37 | construction succeeds exactly when the default layer and tag have a frame 0, raising for that key otherwise, and then holds the description's tables and key orders and shows that frame |
| Aseprite.Animation.CurrentFrameInfo | aseprite.py:73-75 | `_get_frame` returns the entry stored under the current layer, tag and frame exactly when all three are present, and otherwise raises for that key |
| Aseprite.Animation.TagFrameLength | aseprite.py:87-97 | `get_tag_frame_length` is `to - from` of the current tag exactly when the tag is known, and otherwise raises for that tag |
| Aseprite.Animation.FrameDuration | aseprite.py:143-145 | the duration of the entry stored under the current key, raising for that key when there is none |
| Aseprite.Animation.VisibleRegion | aseprite.py:106-110 | the current frame's atlas rectangle, its offset `spriteSourceSize.x/y` and canvas `sourceSize`, raising when the frame is missing |
| Aseprite.Animation.LayerNames | aseprite.py:113-115 | every layer name exactly once, and no other name |
| Aseprite.Animation.TagNames | aseprite.py:117-119 | every tag name exactly once, and no other name |
| Aseprite.Animation.CreateSurface | aseprite.py:99-111 | leaves the state and status `Render` gives |
| Aseprite.Animation.ChangeLayer | aseprite.py:121-130 | leaves the state and status `SwitchLayer` gives |
| Aseprite.Animation.ChangeTag | aseprite.py:132-141 | leaves the state and status `SwitchTag` gives |
| Aseprite.Animation.StepFrame | aseprite.py:157-163 | the loop body leaves the state and status `Pass` gives |
| Aseprite.Animation.Update | aseprite.py:147-163 | the `while` loop leaves the state and status `Advance` gives for the state on entry |

## Left out

- Reading the JSON file (`aseprite.py:41-43`) is left out. The model takes the parsed description
  as a `Description` value.
- Loading the atlas image with `pygame.image.load` and joining its path (`aseprite.py:47-48`) are
  foreign calls and are left out. The image name is kept in the description but unused.
- Creating, filling and blitting the pygame surface (`aseprite.py:107-111`) and `get_surface`
  (`aseprite.py:165-167`) are rendering through a foreign library. The surface is modelled by
  the geometry it is drawn from (`View`), and `_get_frame_resolution` by that geometry's canvas
  size.
- Time is exact integer milliseconds, not float seconds. `get_frame_duration` divides by 1000.0
  (`aseprite.py:145`) and `delta_time` is a float, so float rounding in the loop is not
  modelled, and neither is a negative `delta_time`.
- Aseprite.Animation.Update: requires the frame current on entry to have a positive duration.
  With a zero duration the source's loop either never ends or ends in a KeyError from a later
  pass (an unknown tag, or an index with no frame); the model excludes both, and so do
  `Playback.CatchUp` and `Playback.Advance`.
- Aseprite.Animation.ChangeLayer: compares names by value. The source compares them with
  `is not`, an identity test. So, for an equal but distinct string, the source also switches to
  frame 0 with no time spent and redraws (raising if that frame is missing), where the model
  changes nothing. A caller that passes a name built at runtime on every tick keeps the source
  on frame 0.
- Aseprite.Animation.ChangeTag: compares names by value. For an equal but distinct string the
  source likewise switches to frame 0 with no time spent and redraws (raising if that frame is
  missing), where the model changes nothing.
- `\w`, `\d` and `\s` are modelled over ASCII. On ASCII, `\s` is Python's full set: space, tab,
  line feed, vertical tab, form feed, carriage return and the separators U+001C..U+001F. Python's
  `str` patterns also match non-ASCII letters, digits and spaces, and `int()` reads non-ASCII
  digits; those are not modelled.
- A `Description` lists its frames as a sequence of label and entry pairs, and a repeated label
  is filed last-wins at its last position. A JSON object holds each key once, so a parsed
  description cannot repeat a label; the model does not reproduce what `json.load` does with a
  document that repeats one (it keeps the first position and the last value).
- Playback.ViewOf: takes the atlas rectangle, the offset and the canvas size by field name. The
  source takes them by the position of the JSON values: `frame['frame'].values()` and
  `frame["spriteSourceSize"].values()` (`aseprite.py:109-110`) and `size.values()`
  (`aseprite.py:85`). The two agree when the document writes the keys in the exporter's order,
  `x, y, w, h` (and `w, h`). For another order, such as `{"w":32,"h":32,"x":2,"y":3}`, the source
  would offset the copy by (32, 32) where the model offsets it by (2, 3).
- Aseprite.Animation.VisibleRegion: selects the geometry by name, as `Playback.ViewOf` does, and
  agrees with the source only on the exporter's key order.
- Aseprite.Animation.constructor: reads `imageSize` by field name, while the source takes
  `meta["size"].values()` by position (`aseprite.py:50`); the two agree on the order `w, h`.
- A JSON document missing one of the fields `_parse` reads is not modelled, because the
  description is typed. Neither are `int()` of `size` and `scale` on non-numeric values
  (`aseprite.py:50-51`).
- The tag direction and the layer opacity and blend mode are stored but never used by playback.
- The three tables are built locally by the load methods and then assigned to the object's
  fields once. The source fills the dictionaries on `self` in place. No other code can observe
  the difference, because nothing reads them until `_parse` returns.
- `demo.py` is an event loop, keyboard input and display code, and is not part of this model.
