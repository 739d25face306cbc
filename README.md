# Animation component site: the rule-bearing core

The site is a React catalogue of animated components with a demo page for
each. Most of it is presentation: WebGL widgets, carousels, springs and tweens
from animation libraries. This project models the parts that follow a rule
stated over integers, sequences and strings, and proves what those rules
promise:

- **Loader** (`loader.dfy`). The splash-screen counter steps by 2 up to 100 on
  every 15 ms timeout. Its label changes at 20, 40, 60 and 80, and the loader
  is dismissed on the timeout after progress reaches 100. It is modelled as a
  class with `Tick` and a counting loop, specified by a pure step function.
  Progress stays even, so the `progress === 95` branch that would show
  "Ready!" can never fire. This is proved, and the model keeps that dead
  branch exactly as written.
- **Sidebar slug** (`slug.dfy`, `sidebar.dfy`). An item's link is
  `/components/` followed by the lower-cased name with each run of whitespace
  replaced by one `-`. The category data is given as a literal.
- **Hex colour encoder** (`color_controller.dfy`). `rgbToHex` turns three
  already-rounded integer channels into `#rrggbb`. It uses JavaScript's
  base-16 `Number.toString` and pads to two digits only when a channel has
  one digit. The proofs include decoders and round trips.
- **Shape cycler** (`morphing_svg.dfy`). An index runs over the six path names
  modulo 6. The interval timer advances it (when auto-play is on and the shape
  is not hovered), and so does the replay button. The gradient colours come
  from the palette by the same index. It is modelled as a class over a pure
  event semantics.
- **Scrambling text** (`decrypted_text.dfy`). A counted interval shows random
  same-length scrambles of the text (spaces kept, all other characters drawn
  from a 72-character alphabet), then restores the text after `iterations`
  ticks. Its demo page (`decrypted_text_page.dfy`) updates a settings record
  with two toggles and two bounded sliders.
- **Colour-array updates** on the gradient demo pages (`color_update.dfy`,
  `blob_gradient_page.dfy`, `shader_gradient_page.dfy`). A
  `slice`/spread element replace is stored under one key of the settings
  object, with JavaScript's `slice` index rules written out.
- **Elastic string** (`string_animation.dfy`). The pointer height is clamped
  to [50, 150] and becomes the control point of a quadratic path with fixed
  endpoints. The path string is built from a template. Enter, leave, move and
  reset handlers act on a class.
- **Per-letter text** (`letter_animation.dfy`). BlurText, SplitText, WaveText
  and ShinyText share the same code: one span per character keyed by index,
  a space shown as U+00A0, and the variant chosen from the in-view flag.
  Replay starts 'hidden' at once and 'visible' only when the 'hidden'
  animation's promise resolves, so a flag change can come in between.

`Math.random` becomes a nondeterministic choice (`:|`). The library tweens
(gsap, framer-motion) are modelled by their targets. The in-view flag, the
slider values and the pointer coordinates are inputs.

Two behaviours come from the code rather than from the intent a reader might
expect:

- The BlobGradient page stores the slider's string value as it is, without
  `parseFloat`. The ShaderGradient page does parse it.
- `DecryptedText` never stops unless `iterations` is one of the counts 1, 2,
  3, ..., because its stop test is `count === iterations`: zero, negative and
  fractional values run forever.

## Model

| member | source | states |
|---|---|---|
| `Loader.Advance` | src/Components/Loader.jsx:9-22 | below 100 a timeout keeps loading on and strictly increases progress; at 100 or more it only turns loading off; progress stays within 0..100 |
| `Loader.Relabel` | src/Components/Loader.jsx:14-18 | the label chosen from the pre-tick progress, including the dead `95` branch; specified by `LabelChangesOnlyAtThresholds` and `ReachableNeverReady` |
| `Loader.StartReachable` | src/Components/Loader.jsx:5-6 | the start is progress 0, label "Initializing", still loading, and satisfies the reachable-state invariant |
| `Loader.AdvancePreserves` | src/Components/Loader.jsx:10-18 | every timeout keeps the invariant: even progress in 0..100, label determined by progress, loading off only at 100 |
| `Loader.ReachableNeverReady` | src/Components/Loader.jsx:18 | in every reachable state progress is not 95 and the label is not, and will not become, "Ready!" |
| `Loader.LabelChangesOnlyAtThresholds` | src/Components/Loader.jsx:14-17 | a timeout changes the label if and only if the pre-tick progress is 20, 40, 60 or 80 |
| `Loader.RunClosedForm` | src/Components/Loader.jsx:5-22 | after n timeouts progress is min(2n, 100), the state is reachable, and loading is on exactly while n <= 50 |
| `Loader.RunNeverReady` | src/Components/Loader.jsx:18 | no number of timeouts shows "Ready!" |
| `Loader.LoadingEndsAfterFiftyIncrements` | src/Components/Loader.jsx:10-20 | fifty increments reach 100 with loading still on, every earlier count is below 100, and the 51st timeout ends loading with "Almost There" shown |
| `Loader.ProgressLoader.constructor` | src/Components/Loader.jsx:5-6 | the component starts in the start state |
| `Loader.ProgressLoader.Tick` | src/Components/Loader.jsx:9-22 | the new state is one timeout step of the old state |
| `Loader.ProgressLoader.RunToCompletion` | src/Components/Loader.jsx:8-25 | from the start the loader is dismissed after exactly 51 timeouts, at progress 100 showing "Almost There" |
| `Slugify.IsSpace` | src/Components/layout/Sidebar.jsx:57 | the `\s` class: the ECMAScript WhiteSpace and LineTerminator code points; specified by `ScanNoSpace`, `ScanRun` and `SlugRun` |
| `Slugify.LowerChar` | src/Components/layout/Sidebar.jsx:57 | one character of `toLowerCase()`: no upper-case letter remains in its result; specified further by `LowerIdentity` and `SlugChar` |
| `Slugify.Lower` | src/Components/layout/Sidebar.jsx:57 | `toLowerCase()` character by character; specified by `LowerIdentity`, `LowerAppend` and `LowerNoSpace` |
| `Slugify.Scan` | src/Components/layout/Sidebar.jsx:57 | `replace(/\s+/g, '-')` as a scan that remembers whether it is inside a whitespace run; specified by `ScanNoSpace`, `ScanIdentity`, `ScanAppend`, `ScanRun` and `ScanAfterText` |
| `Slugify.Collapse` | src/Components/layout/Sidebar.jsx:57 | the replace, started outside a run; specified by `CollapseNoSpace`, `CollapseIdentity`, `CollapseAppend` and `CollapseRun` |
| `Slugify.Slug` | src/Components/layout/Sidebar.jsx:57 | lower-case then collapse whitespace runs; specified by `SlugShape`, `SlugIdempotent`, `SlugAppend`, `SlugChar` and `SlugRun`, which together fix the slug of every name |
| `Slugify.CollapseNoSpace` | src/Components/layout/Sidebar.jsx:57 | `replace(/\s+/g, '-')` leaves no whitespace character |
| `Slugify.ScanNoSpace` | src/Components/layout/Sidebar.jsx:57 | the scan behind the replace emits no whitespace from any starting state |
| `Slugify.ScanIdentity` | src/Components/layout/Sidebar.jsx:57 | a string without whitespace is scanned to itself |
| `Slugify.CollapseIdentity` | src/Components/layout/Sidebar.jsx:57 | the replace leaves a string without whitespace unchanged |
| `Slugify.ScanNoUpper` | src/Components/layout/Sidebar.jsx:57 | the scan introduces no upper-case letter |
| `Slugify.LowerIdentity` | src/Components/layout/Sidebar.jsx:57 | lower-casing is the identity on a string without upper-case letters |
| `Slugify.SlugShape` | src/Components/layout/Sidebar.jsx:57 | a slug contains no whitespace and no upper-case letter |
| `Slugify.SlugIdempotent` | src/Components/layout/Sidebar.jsx:57 | slugging a slug returns it unchanged |
| `Slugify.SlugWithoutSpaces` | src/Components/layout/Sidebar.jsx:57 | a name without whitespace maps to its lower-case form |
| `Slugify.ScanAppend` | src/Components/layout/Sidebar.jsx:57 | the scan of a concatenation is the scan of the first part followed by the scan of the second from the state the first left |
| `Slugify.ScanAfterText` | src/Components/layout/Sidebar.jsx:57 | once a non-whitespace character follows, the scan no longer depends on whether a run preceded it |
| `Slugify.CollapseAppend` | src/Components/layout/Sidebar.jsx:57 | the replace distributes over a concatenation that does not cut a whitespace run |
| `Slugify.ScanRun` | src/Components/layout/Sidebar.jsx:57 | a run of whitespace scans to one `-` when it starts a run and to nothing inside one |
| `Slugify.CollapseRun` | src/Components/layout/Sidebar.jsx:57 | a non-empty run of whitespace is replaced by exactly one `-` |
| `Slugify.LowerAppend` | src/Components/layout/Sidebar.jsx:57 | lower-casing distributes over concatenation |
| `Slugify.LowerNoSpace` | src/Components/layout/Sidebar.jsx:57 | lower-casing introduces no whitespace |
| `Slugify.SlugTwoWords` | src/Components/layout/Sidebar.jsx:6-57 | two words joined by a space slug to the lower-cased words joined by `-` |
| `Slugify.SlugAppend` | src/Components/layout/Sidebar.jsx:57 | the slug distributes over a concatenation that does not cut a whitespace run |
| `Slugify.SlugChar` | src/Components/layout/Sidebar.jsx:57 | a non-whitespace character is only lower-cased |
| `Slugify.SlugRun` | src/Components/layout/Sidebar.jsx:57 | every maximal whitespace run becomes exactly one `-`, so nothing is trimmed or dropped |
| `Sidebar.Categories` | src/Components/layout/Sidebar.jsx:2-46 | the three categories with their 8, 10 and 10 items, in order; specified by `NamesDistinctPerCategory` and `SplitTextHref` |
| `Sidebar.Href` | src/Components/layout/Sidebar.jsx:57 | `/components/` followed by the slug of the name; specified by `SplitTextHref` and the slug lemmas |
| `Sidebar.NamesDistinctPerCategory` | src/Components/layout/Sidebar.jsx:2-55 | within each of the three categories the item names, used as React keys, are pairwise distinct |
| `Sidebar.SplitTextHref` | src/Components/layout/Sidebar.jsx:6-57 | the "Split Text" item links to `/components/split-text` |
| `ColorController.Base16` | src/Components/shared/ColorController.jsx:6 | the base-16 form of a non-negative integer is non-empty and made of lowercase hex digits |
| `ColorController.NumberToHex` | src/Components/shared/ColorController.jsx:6 | `Number.toString(16)` of an integer, with `-` before a negative one; specified by `Base16Length` and `NegativeChannel` |
| `ColorController.ToHex` | src/Components/shared/ColorController.jsx:5-8 | pads a one-character hex string with a leading `0`; specified by `ToHexChannel`, `ToHexRoundTrip`, `NoClamping` and `NegativeChannel` |
| `ColorController.RgbToHex` | src/Components/shared/ColorController.jsx:4-10 | `#` followed by the three channels' pairs; specified by `RgbToHexShape` and `RgbToHexRoundTrip` |
| `ColorController.DigitValue` | src/Components/shared/ColorController.jsx:6 | a character decodes to a value exactly when it is a lowercase hex digit, and that value encodes back to it |
| `ColorController.DigitRoundTrip` | src/Components/shared/ColorController.jsx:6 | every digit value decodes from its digit |
| `ColorController.Base16RoundTrip` | src/Components/shared/ColorController.jsx:6 | reading the base-16 form back yields the number |
| `ColorController.Base16Length` | src/Components/shared/ColorController.jsx:6-7 | the base-16 form has one digit exactly below 16, two exactly for 16..255, and three or more exactly from 256 |
| `ColorController.ToHexChannel` | src/Components/shared/ColorController.jsx:6-7 | a channel in 0..255 gives exactly two hex digits; 0..15 get a leading '0', and 16..255 are the base-16 form with no padding |
| `ColorController.ToHexRoundTrip` | src/Components/shared/ColorController.jsx:6-7 | reading a channel's pair back in base 16 yields the channel |
| `ColorController.RgbToHexShape` | src/Components/shared/ColorController.jsx:9 | for in-range channels the colour is '#' then the R, G and B pairs in that order, 7 characters long |
| `ColorController.RgbToHexRoundTrip` | src/Components/shared/ColorController.jsx:4-10 | decoding the colour string gives back the three channels |
| `ColorController.NoClamping` | src/Components/shared/ColorController.jsx:6-9 | a channel above 255 is not clamped: it gives three or more digits, and the colour is longer than 7 |
| `ColorController.NegativeChannel` | src/Components/shared/ColorController.jsx:6-7 | a channel in -15..-1 gives a minus sign and one digit, which the length test does not pad |
| `MorphingSvg.AdvanceByClosedForm` | src/Components/animations/MorphingSvg.jsx:31-39 | n advances from an index in range land on (p + n) mod 6 |
| `MorphingSvg.Next` | src/Components/animations/MorphingSvg.jsx:31-39 | `(prev + 1) % pathNames.length`; specified by `AdvanceByClosedForm` and `SixAdvancesCycle` |
| `MorphingSvg.Step` | src/Components/animations/MorphingSvg.jsx:26-50 | the effect of one timer tick, replay click, pointer enter or leave; specified by `RunInRange`, `OnlyReplayWithoutAutoPlay` and the `Morpher` methods' ensures |
| `MorphingSvg.ColorAt` | src/Components/animations/MorphingSvg.jsx:42-43 | `colors[i % colors.length]`, `undefined` for an empty palette; specified by `ColorIndices` |
| `MorphingSvg.SixAdvancesCycle` | src/Components/animations/MorphingSvg.jsx:4-11 | six advances return to the start, and no fewer do |
| `MorphingSvg.RunInRange` | src/Components/animations/MorphingSvg.jsx:22-40 | after any events the index stays within [0, 6) |
| `MorphingSvg.OnlyReplayWithoutAutoPlay` | src/Components/animations/MorphingSvg.jsx:26-40 | without auto-play the index moves by exactly one advance per replay click, whatever the hover events |
| `MorphingSvg.ColorIndices` | src/Components/animations/MorphingSvg.jsx:42-43 | for a non-empty palette both colours are palette entries and the next colour's index is the current one plus one modulo the length; an empty palette gives none |
| `MorphingSvg.Morpher.constructor` | src/Components/animations/MorphingSvg.jsx:22-23 | the shape starts at index 0, not hovered |
| `MorphingSvg.Morpher.TimerTick` | src/Components/animations/MorphingSvg.jsx:26-36 | a timer tick advances by one modulo 6 only with auto-play on and the shape not hovered, and otherwise changes nothing |
| `MorphingSvg.Morpher.HandleReplay` | src/Components/animations/MorphingSvg.jsx:38-40 | replay advances by one modulo 6 regardless of hover |
| `MorphingSvg.Morpher.MouseEnter` | src/Components/animations/MorphingSvg.jsx:49 | entering sets hovered and keeps the index |
| `MorphingSvg.Morpher.MouseLeave` | src/Components/animations/MorphingSvg.jsx:50 | leaving clears hovered and keeps the index |
| `MorphingSvg.Morpher.CurrentShape` | src/Components/animations/MorphingSvg.jsx:4-24 | the drawn path is one of the six named paths |
| `DecryptedText.AlphabetMembers` | src/Components/animations/DecryptedText.jsx:16 | the constant `Characters` has 72 characters, exactly the ASCII letters, the digits and `!@#$%^&*()`, and no space |
| `DecryptedText.IsScrambleOf` | src/Components/animations/DecryptedText.jsx:21-24 | what a scrambled frame is: same length, a space where the text has one, an alphabet character elsewhere; specified by `ScrambleKeepsSpaces` and established by `Scramble` |
| `DecryptedText.IsCount` | src/Components/animations/DecryptedText.jsx:27-29 | the values `count === iterations` can meet: whole numbers from 1; specified by `FractionalIsNoCount` and used by `RunFor` |
| `DecryptedText.FractionalIsNoCount` | src/Components/animations/DecryptedText.jsx:29 | 2.5 and 0 are never met by the count, 3 is |
| `DecryptedText.ScrambleKeepsSpaces` | src/Components/animations/DecryptedText.jsx:21-24 | a frame has a space at exactly the positions where the text has one |
| `DecryptedText.TextIsScrambleIff` | src/Components/animations/DecryptedText.jsx:21-31 | the text itself counts as a frame exactly when it consists only of spaces and alphabet characters |
| `DecryptedText.Scramble` | src/Components/animations/DecryptedText.jsx:21-24 | a frame has the text's length, a space wherever the text has one, and an alphabet character at every other position |
| `DecryptedText.Decrypter.constructor` | src/Components/animations/DecryptedText.jsx:5-44 | the display starts as the text, and a run is started on mount exactly when `animateOn` is 'start'; `direction` has no effect |
| `DecryptedText.Decrypter.Start` | src/Components/animations/DecryptedText.jsx:18-20 | starting resets the count and runs the interval, leaving the display as it was |
| `DecryptedText.Decrypter.Tick` | src/Components/animations/DecryptedText.jsx:20-33 | a tick counts one; while running the display is a frame of the text, and on the tick whose count equals the number `iterations` the run stops and the display is the text again |
| `DecryptedText.Decrypter.RunFor` | src/Components/animations/DecryptedText.jsx:18-34 | when the number `iterations` is a count 1..n the run stops after exactly `iterations` ticks showing the text; for zero, negative, fractional or larger values it is still running after all n ticks |
| `DecryptedTextPage.SetSpeed` | src/pages/components/decrypted-text.jsx:232 | the speed slider sets speed and copies every other field |
| `DecryptedTextPage.SetIterations` | src/pages/components/decrypted-text.jsx:245 | the iterations slider sets iterations and copies every other field |
| `DecryptedTextPage.ToggleAnimateOn` | src/pages/components/decrypted-text.jsx:253-256 | 'view' becomes 'start' and any other value becomes 'view'; the other fields are copied |
| `DecryptedTextPage.ToggleDirection` | src/pages/components/decrypted-text.jsx:262-265 | 'start' becomes 'end' and any other value becomes 'start'; the other fields are copied |
| `DecryptedTextPage.ToggleAnimateOnInvolution` | src/pages/components/decrypted-text.jsx:253-256 | on 'view' and 'start' two presses restore the settings |
| `DecryptedTextPage.ToggleDirectionInvolution` | src/pages/components/decrypted-text.jsx:262-265 | on 'start' and 'end' two presses restore the settings |
| `DecryptedTextPage.TogglesOutsideDomain` | src/pages/components/decrypted-text.jsx:253-265 | outside those values two presses do not restore the field |
| `DecryptedTextPage.InitialInRange` | src/pages/components/decrypted-text.jsx:83-88 | the initial settings (60, 10, 'view', 'start') are within the slider ranges and toggle values |
| `DecryptedTextPage.ApplyPreservesInRange` | src/pages/components/decrypted-text.jsx:227-265 | each slider move within its min..max and each toggle keeps the settings in range |
| `DecryptedTextPage.ReplayInRange` | src/pages/components/decrypted-text.jsx:239-246 | any sequence of control actions keeps speed in 10..200 and iterations in 1..20 |
| `DecryptedTextPage.PreviewRun` | src/pages/components/decrypted-text.jsx:202-246 | a preview started with the page's settings after any actions stops after exactly `iterations` (1..20) ticks and shows its text |
| `ColorUpdate.RelativeIndex` | src/pages/components/blob-gradient.jsx:38-40 | a slice index is clamped to 0..length, and a negative one counts from the end |
| `ColorUpdate.Slice` | src/pages/components/blob-gradient.jsx:38-40 | `Array.prototype.slice(start, end)` with relative indices; specified by `SliceSplit` and by `ReplaceAt`'s lemmas `ReplaceInRange`, `ReplacePastEnd` and `ReplaceMinusOne` |
| `ColorUpdate.SliceSplit` | src/pages/components/blob-gradient.jsx:38-40 | the two slices `slice(0, k)` and `slice(k)` put side by side give the array back for every integer k, negative or past the end; the full slice is the array |
| `ColorUpdate.ReplaceAt` | src/pages/components/blob-gradient.jsx:37-41 | `[...a.slice(0, index), value, ...a.slice(index + 1)]`; specified by `ReplaceInRange`, `ReplacePastEnd`, `ReplaceMinusOne`, `ReplaceIdempotent` and `ReplaceFarPastEndAppendsTwice` |
| `ColorUpdate.ReplaceInRange` | src/pages/components/blob-gradient.jsx:37-41 | for an index in range the new array is the sequence update: same length, the value at the index, all other positions unchanged |
| `ColorUpdate.ReplacePastEnd` | src/pages/components/shader-gradient.jsx:35-39 | at or past the end the value is appended |
| `ColorUpdate.ReplaceMinusOne` | src/pages/components/shader-gradient.jsx:35-39 | index -1 gives all but the last element, then the value, then the whole array: twice the length |
| `ColorUpdate.ReplaceIdempotent` | src/pages/components/blob-gradient.jsx:37-41 | replacing twice with the same value is replacing once, for every index up to the length |
| `ColorUpdate.ReplaceFarPastEndAppendsTwice` | src/pages/components/shader-gradient.jsx:35-39 | beyond the length each replace appends, so it is not idempotent there |
| `ColorUpdate.UpdateKey` | src/pages/components/blob-gradient.jsx:34-43 | the update fails exactly when the key is missing; otherwise it keeps the key set, replaces that key's array and leaves every other key unchanged |
| `ColorUpdate.UpdateIdempotent` | src/pages/components/shader-gradient.jsx:32-41 | the same (key, index, value) update applied twice equals it applied once |
| `ColorUpdate.EmittedChangeSucceeds` | src/Components/shared/ColorController.jsx:32-58 | a change for a page key at channel 0, 1 or 2 on three-channel settings never throws and keeps them three-channel |
| `ColorUpdate.ApplyAllKeepsThreeChannels` | src/Components/shared/ColorController.jsx:32-58 | any sequence of such changes keeps every colour three-channel |
| `BlobGradientPage.Defaults` | src/pages/components/blob-gradient.jsx:7-12 | the initial settings have the four colour keys, each with three channels |
| `BlobGradientPage.HandleColorChange` | src/pages/components/blob-gradient.jsx:34-43 | stores the raw slider string under the colour's key; specified by `ControlChange`, `FirstMoveMixesTypes` and `UpdateKey` |
| `BlobGradientPage.ControlChange` | src/pages/components/blob-gradient.jsx:34-43 | a control change keeps the length, stores the slider's string unconverted at the index, and leaves other channels and colours alone |
| `BlobGradientPage.ControlsKeepDefaultsShape` | src/pages/components/blob-gradient.jsx:143-158 | starting from the defaults, the indices 0, 1 and 2 sent by the four controls stay valid after any sequence of changes |
| `BlobGradientPage.FirstMoveMixesTypes` | src/pages/components/blob-gradient.jsx:8-39 | one red-slider move on the defaults leaves a string next to two numbers |
| `ShaderGradientPage.Defaults` | src/pages/components/shader-gradient.jsx:6-10 | the initial settings have the three colour keys, each with three channels |
| `ShaderGradientPage.HandleColorChange` | src/pages/components/shader-gradient.jsx:32-41 | stores the parsed number under the colour's key; specified by `ControlChange` and `UpdateKey` |
| `ShaderGradientPage.ControlIndicesValid` | src/pages/components/shader-gradient.jsx:110-134 | the indices 0, 1 and 2 the local control emits are valid for every default colour |
| `ShaderGradientPage.ControlChange` | src/pages/components/shader-gradient.jsx:32-41 | a control change keeps the length, stores the parsed number at the index, leaves other channels and colours alone, and is idempotent |
| `ShaderGradientPage.ControlsKeepDefaultsShape` | src/pages/components/shader-gradient.jsx:175-185 | starting from the defaults, any sequence of control changes keeps three three-channel colours |
| `StringAnimation.Clamp` | src/Components/animations/StringAnimation.jsx:25 | the clamped height is in [50, 150], equals the input inside that range, and is the nearer bound outside it |
| `StringAnimation.ClampMonotone` | src/Components/animations/StringAnimation.jsx:25 | the clamp is non-decreasing |
| `StringAnimation.ClampIdempotent` | src/Components/animations/StringAnimation.jsx:25 | clamping twice is clamping once |
| `StringAnimation.MovePath` | src/Components/animations/StringAnimation.jsx:25-27 | the `initial` path template; specified by `PathsShaped`, `MoveIsFinalIff` and `RenderMatchesTemplate` |
| `StringAnimation.MoveIsFinalIff` | src/Components/animations/StringAnimation.jsx:16-27 | a move path is the rest path exactly when the height is 100 |
| `StringAnimation.PathsShaped` | src/Components/animations/StringAnimation.jsx:16-27 | move paths and the rest path have the fixed endpoints and a control y within [50, 150] |
| `StringAnimation.Decimal` | src/Components/animations/StringAnimation.jsx:27 | a whole number renders as a non-empty string of decimal digits |
| `StringAnimation.DecimalRoundTrip` | src/Components/animations/StringAnimation.jsx:27 | reading the decimal form back yields the number |
| `StringAnimation.MoveStringRoundTrip` | src/Components/animations/StringAnimation.jsx:27 | a move string has the fixed prefix and suffix and carries exactly its control height |
| `StringAnimation.MoveAtRestIsFinal` | src/Components/animations/StringAnimation.jsx:16-27 | at height 100 the move string equals `final` |
| `StringAnimation.MoveString` | src/Components/animations/StringAnimation.jsx:27 | the `initial` template for a whole-number height; specified by `MoveStringRoundTrip`, `MoveAtRestIsFinal` and `RenderMatchesTemplate` |
| `StringAnimation.Render` | src/Components/animations/StringAnimation.jsx:16-27 | the `d` string of a path with whole coordinates; specified by `RenderMatchesTemplate` and `RenderFinal` |
| `StringAnimation.RenderMatchesTemplate` | src/Components/animations/StringAnimation.jsx:25-27 | the path a move targets is drawn exactly as the move string, for whole heights 50..150 |
| `StringAnimation.RenderFinal` | src/Components/animations/StringAnimation.jsx:16 | the rest path is drawn as `final` |
| `StringAnimation.ElasticString.constructor` | src/Components/animations/StringAnimation.jsx:12-16 | the string starts at rest, not hovered |
| `StringAnimation.ElasticString.MouseMove` | src/Components/animations/StringAnimation.jsx:18-35 | with the SVG mounted a move targets the path through the clamped pointer height; without it nothing changes |
| `StringAnimation.ElasticString.MouseLeave` | src/Components/animations/StringAnimation.jsx:37-47 | leaving clears hovering and targets the rest path |
| `StringAnimation.ElasticString.MouseEnter` | src/Components/animations/StringAnimation.jsx:49-51 | entering sets hovering and keeps the target |
| `StringAnimation.ElasticString.Reset` | src/Components/animations/StringAnimation.jsx:53-61 | reset targets the rest path and keeps hovering |
| `LetterAnimation.SpansPositionwise` | src/Components/animations/BlurText.jsx:62-71 | one span per character, keyed by its index, showing U+00A0 for a space and the character itself otherwise |
| `LetterAnimation.Glyph` | src/Components/animations/BlurText.jsx:69 | a space becomes U+00A0, anything else is kept; specified by `SpansPositionwise` and `ShownHasNoSpace` |
| `LetterAnimation.Spans` | src/Components/animations/BlurText.jsx:10-71 | one keyed span per character of the text; specified by `SpansPositionwise`, `KeysDistinct`, `ShownAppend` and `RestoreShown` |
| `LetterAnimation.KeysDistinct` | src/Components/animations/ShinyText.jsx:49-51 | the span keys 0..n-1 are pairwise distinct |
| `LetterAnimation.ShownHasNoSpace` | src/Components/animations/SplitText.jsx:55-63 | the rendered text has the input's length and no ordinary space, and shows U+00A0 exactly where the input had a space or U+00A0 |
| `LetterAnimation.ShownAppend` | src/Components/animations/WaveText.jsx:62-70 | rendering a concatenation renders each part in turn |
| `LetterAnimation.RestoreShown` | src/Components/animations/ShinyText.jsx:49-57 | on a text without U+00A0 turning the no-break spaces back recovers the text |
| `LetterAnimation.SpaceAndNoBreakSpaceLookAlike` | src/Components/animations/BlurText.jsx:69 | a space and U+00A0 render the same |
| `LetterAnimation.ViewVariant` | src/Components/animations/BlurText.jsx:12-18 | `isInView ? 'visible' : 'hidden'`; specified by `ViewFlagDecides` and `StartsWithoutReplay` |
| `LetterAnimation.Starts` | src/Components/animations/BlurText.jsx:12-51 | the variants passed to `controls.start`: the flag's variant, 'hidden' at a replay click, and 'visible' when a waiting replay's 'hidden' promise resolves; specified by the lemmas below |
| `LetterAnimation.Pending` | src/Components/animations/BlurText.jsx:49-51 | the number of replay callbacks still waiting; specified by `ReplayStartsHidden`, `ReplayEndsVisible` and `ViewFlagDecides` |
| `LetterAnimation.Current` | src/Components/animations/BlurText.jsx:12-60 | the variant the letters show: the last one started, or `initial="hidden"`; specified by `ReplayStartsHidden`, `ReplayEndsVisible`, `ViewFlagDecides` and `PendingReplayOverridesFlag` |
| `LetterAnimation.ReplayStartsHidden` | src/Components/animations/BlurText.jsx:50 | a replay click starts 'hidden' and leaves one more callback waiting |
| `LetterAnimation.ReplayEndsVisible` | src/Components/animations/SplitText.jsx:42-44 | a replay click followed by the resolution of its 'hidden' animation starts 'hidden' then 'visible' and ends at 'visible', after whatever came before |
| `LetterAnimation.ViewFlagDecides` | src/Components/animations/SplitText.jsx:11-17 | right after a change of the in-view flag the letters show 'visible' exactly when in view, and no waiting callback is added or removed |
| `LetterAnimation.FlagStaysWithoutPendingReplay` | src/Components/animations/BlurText.jsx:12-18 | with no replay waiting, a later animation resolving leaves the flag's variant in place |
| `LetterAnimation.PendingReplayOverridesFlag` | src/Components/animations/BlurText.jsx:7-51 | a replay still waiting when the flag goes false starts 'visible' afterwards: the letters end visible while out of view |
| `LetterAnimation.StartsWithoutReplay` | src/Components/animations/ShinyText.jsx:12-18 | with only flag changes the variants started are exactly the variants of the flags seen, in order |

## Left out

- Slugify.LowerChar: maps only the ASCII letters A-Z, while `toLowerCase` maps all of Unicode. The listed item names use only ASCII letters.
- `\s` is modelled as the ECMAScript whitespace and line-terminator set. Strings are sequences of Unicode scalar values, so `String(text).split('')`, which splits UTF-16 code units, agrees with the model only on text outside the supplementary planes.
- Sidebar.NamesDistinctPerCategory: the listed item names are proved distinct within each category. That their slugs are pairwise distinct across all 28 items is not proved, because evaluating the slug rule on all 28 string literals in one proof is too costly for the verifier.
- `Math.round(n * 255)` in `rgbToHex`, `parseFloat` on the ShaderGradient page, and the number-to-string formatting in StringAnimation are floating-point conversions. The model starts from the integer or real value after conversion. The elastic string renders its path string only for whole-number heights.
- StringAnimation.Clamp: works over mathematical reals, so NaN inputs (an `undefined` pointer coordinate) are not modelled.
- `Math.random` is a nondeterministic choice of alphabet index. The model does not capture the distribution.
- DecryptedText.Decrypter.Start: restarts the single run. The overlapping scramble intervals that repeated replay clicks start are concurrency and are not modelled.
- Timers and their durations (15 ms, `interval`, `speed`) are not modelled; each firing is one call. Clearing a timer on unmount or on re-render is not modelled either.
- BlobGradient's `handleColorChange` reads the rendered `settings`, not `prev`. Two changes made before a re-render therefore overwrite each other. The model applies changes one render at a time.
- A change whose key is missing throws. In the model the settings stay as they were, and nothing more: on the ShaderGradient page the throw happens inside React's updater, and React's error handling is not modelled.
- LetterAnimation.ViewFlagDecides: fixes the variant only until the next resolution of a 'hidden' animation. A replay still waiting then starts 'visible' whatever the flag says, as `PendingReplayOverridesFlag` shows.
- Whether framer-motion resolves the promise of an interrupted 'hidden' animation is library behaviour; the resolution is an input (`HiddenSettled`), and each one runs the oldest waiting replay callback.
- gsap tweens and easing, framer-motion springs, stagger and the `useInView` detection (including `once: true` in WaveText and ShinyText) are library code. The model treats the tween target and the in-view flag as opaque outputs and inputs.
- The Loader's randomised background dots, the WebGL widgets, the Swiper wrappers, the clipboard and code-block glue, the documentation string literals and the layout-only pages contain no rule of the kind modelled here.
