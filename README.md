# Earth view: camera descriptors, the globe controller and the editor

The site shows a spinning Earth. A visitor can open it on a chosen camera by
putting a short *camera descriptor* in the URL path, for example
`/x0y0z4def0-zoom45`. The descriptor gives the camera position (`x`, `y`,
`z`), a roll in degrees (`def`) and an optional field of view (`-zoom`).
A companion editor page lets an author orbit the globe, set roll and field
of view, and copy the descriptor and the link that opens it.

This Dafny project models three parts of the system.

- **The descriptor codec** (`scripts/camera.js`), in modules `Camera` and
  `CameraRoundTrip`:
  - the grammar, as a hand-written recogniser that returns a syntax tree;
  - the parser, the serialiser and its number formatting (`toFixed` and
    the trailing-zero strip);
  - the field-of-view clamp;
  - the extraction of the descriptor from a URL path.

  Numbers are exact decimals and reals. `Base` and `Decimal` hold the
  shared values: JavaScript numbers, whitespace, `trim`, and digit strings
  with their values.
- **The globe controller** (`scripts/main.js`), in modules `Globe` and
  `Roughness`:
  - the rotation-mode table and `setRotationMode`, where an unknown mode
    falls back to `free` (scripts/main.js:209-211);
  - the cubic ease-out;
  - the single-slot camera transition, with the clock passed in as `now`;
  - the per-frame update;
  - the mode sequence of start-up and of placing the user's marker;
  - the in-place roughness pass over a pixel buffer.

  The mutable module state is the class `Globe.Viewer`.
- **The editor** (`earth-view/editor/editor.js`), in module `Editor`:
  - coordinate labels and the preview link;
  - the place a descriptor given to the page is taken from;
  - the page state the controls and the load button update. The class
    `Editor.EditorState` holds this state, and the `Page` value is its
    snapshot.

## Model

| member | source | states |
|---|---|---|
| Base.TrimSpec | scripts/camera.js:6 | `trim` removes exactly the whitespace run at each end: the result is a middle slice of the input, and when non-empty it neither starts nor ends with whitespace |
| Base.Trim | scripts/camera.js:6 | `trim` never lengthens the text, and a non-empty result neither starts nor ends with whitespace |
| Camera.ClampFov | scripts/camera.js:19-24 | always in [15, 90]; 45 for a non-finite value; the value itself inside the range, 15 at or below it, 90 at or above it |
| Camera.ClampFovNonExpansive | scripts/camera.js:23 | clamping never moves a value farther from a field of view that is already in range |
| Camera.StripWhitespace | scripts/camera.js:38 | the `\s+` removal leaves no whitespace and never lengthens the text |
| Camera.StripConcat | scripts/camera.js:38 | removing whitespace from a concatenation is removing it from each part |
| Camera.StripNoSpace | scripts/camera.js:38 | text without whitespace is unchanged |
| Camera.ScanDigits | scripts/camera.js:2 | `\d+` consumes the longest run of digits: all consumed characters are digits and the next one is not |
| Camera.ScanNumeral | scripts/camera.js:2 | a consumed number is a well-formed `-?\d+(\.\d+)?` numeral, and the numeral's text followed by the rest is the input |
| Camera.ScanNumeralText | scripts/camera.js:2 | a numeral followed by text that cannot extend it is read back exactly, leaving that text |
| Camera.ScanZoom | scripts/camera.js:2 | the optional group is either absent, with nothing left, or `-zoom` in any letter case followed by a numeral and nothing else |
| Camera.ParseSyntax | scripts/camera.js:1-2 | soundness: an accepted text is the rendering of the well-formed tree returned |
| Camera.ParseSyntaxRender | scripts/camera.js:1-2 | completeness: the rendering of every well-formed tree is accepted, giving that tree back |
| Camera.ParseSyntaxExact | scripts/camera.js:1-2 | the recogniser accepts a text if and only if it is a sentence of the grammar |
| Camera.Interpret | scripts/camera.js:43-51 | the position is the three numeral values; the roll is its value, the fallback to 0 only replacing -0; the fov is 45 without a `-zoom` group and the clamped zoom value with one |
| Camera.ParseCameraDescriptor | scripts/camera.js:34-52 | the empty descriptor gives null; every accepted descriptor has a fov in [15, 90] |
| Camera.ParseSeesOnlyNonSpace | scripts/camera.js:38 | two descriptors with the same non-whitespace characters parse to the same result |
| Camera.ParseIgnoresWhitespace | scripts/camera.js:38 | inserting any whitespace anywhere in a descriptor does not change its parse |
| Camera.ParseAcceptsExactlyGrammar | scripts/camera.js:34-42 | a descriptor parses if and only if its whitespace-stripped text is a sentence of `x num y num z num def num (-zoom num)?`, with letters in any case |
| Camera.RenderNoSpace | scripts/camera.js:2 | no sentence of the grammar contains whitespace |
| Camera.ParseRendered | scripts/camera.js:34-52 | a sentence of the grammar parses to the camera its tree denotes |
| Camera.RoundHalfUp | scripts/camera.js:30 | the rounding `toFixed` applies: the natural number nearest the value, with ties rounding up |
| Camera.FixedDigits | scripts/camera.js:30 | `toFixed` digits: digits whose value is the rounded, scaled magnitude, exactly `decimals + 1` of them when the magnitude has no more digits than that, and otherwise exactly the magnitude's own digits with no leading zero |
| Camera.ToFixed | scripts/camera.js:30 | `toFixed`: a leading `-` exactly for a negative value; with decimals, the text ends in a point followed by exactly that many digits, with something before the point; without, only digits follow the sign |
| Camera.TrailingZeroCount | scripts/camera.js:31 | counts exactly the trailing `0` characters |
| Camera.StripZeroTail | scripts/camera.js:31 | the `\.?0+$` replacement only cuts a suffix |
| Camera.StripZeroTailLeftmost | scripts/camera.js:31 | what is cut is a suffix the pattern matches, starting at the leftmost position where one starts; nothing is cut when no suffix matches |
| Camera.StripZeroTailAfter | scripts/camera.js:31 | text not ending in `0`, followed by zeros, loses exactly those zeros, and then a point left bare |
| Camera.StripZeroTailOfFraction | scripts/camera.js:30-31 | on `head.fraction` the strip drops the fraction's trailing zeros, and the point too when no digit remains |
| Camera.SanitizeText | scripts/camera.js:26-32 | for a finite value, `sanitizeNumber` writes the text of the rounded numeral, with its fractional trailing zeros dropped |
| Camera.StripFixedText | scripts/camera.js:30-31 | stripping the `toFixed` text gives the text of that numeral |
| Camera.PointNumeralShape | scripts/camera.js:31 | the written fraction has at most `decimals` digits and does not end in `0` |
| Camera.PointNumeralDigits | scripts/camera.js:31 | the written digits followed by the dropped zeros are exactly the `toFixed` digits |
| Camera.PointNumeralValue | scripts/camera.js:30-31 | dropping the zeros keeps the value: the written numeral is the signed rounded magnitude |
| Camera.FormattedNumeralValue | scripts/camera.js:30 | the written numeral's value is the rounded magnitude, negative exactly for a negative input |
| Camera.FormattedNumeralError | scripts/camera.js:30 | the written number is within half a unit of its last decimal place of the input |
| Camera.SanitizeNumberShape | scripts/camera.js:26-32 | the output is never empty, never ends in `.`, and never ends in a fractional `0` |
| Camera.SanitizeNumber | scripts/camera.js:26-32 | `sanitizeNumber`: `0` for a non-finite value, otherwise a prefix of the `toFixed` text; Camera.SanitizeText states exactly which prefix |
| Camera.SplitPath | scripts/camera.js:5 | `split('/')` yields at least one part, and no part contains `/` |
| Camera.Segments | scripts/camera.js:5 | the path's segments after `filter(Boolean)` are non-empty and slash-free |
| Camera.JoinSegments | scripts/camera.js:5 | joining all segments gives the path with its slashes removed |
| Camera.ExtractDescriptorFromPath | scripts/camera.js:4-17 | the extracted descriptor never contains `/` |
| Camera.ExtractEmptyExactly | scripts/camera.js:7-16 | the result is empty if and only if no segment remains below the site base or the first remaining one is `earth-view` |
| Camera.ExtractWithoutBase | scripts/camera.js:4-17 | when the first segment is neither the trimmed site base nor `earth-view`, the result is the whole path without slashes |
| Camera.ExtractBelowBase | scripts/camera.js:6-9 | a path under `/base/` gives what the rest of the path gives without a site base |
| Camera.SiteBase | scripts/camera.js:6 | the site base is empty when absent; when non-empty it is trimmed, neither starting nor ending with whitespace |
| CameraRoundTrip.Intended | scripts/camera.js:55-57 | the camera the serialiser means to write: the missing position is (0,0,0), a non-finite roll is 0, a missing fov is 45, and the fov is clamped into [15, 90] |
| CameraRoundTrip.BuildIsRender | scripts/camera.js:54-62 | the serialiser's output is the rendering of a well-formed tree whose `-zoom` group is always present |
| CameraRoundTrip.SanitizeNumeral | scripts/camera.js:26-32 | `sanitizeNumber` writes the text of a well-formed numeral |
| CameraRoundTrip.NumeralOfError | scripts/camera.js:26-32 | that numeral is within half a unit of the last decimal place of the value, or of 0 for a non-finite value |
| CameraRoundTrip.BuildMatchesGrammar | scripts/camera.js:54-62 | every descriptor the serialiser writes is a sentence of the grammar |
| CameraRoundTrip.BuiltIsClose | scripts/camera.js:54-62 | the tree the serialiser writes denotes the intended camera: position within 5e-5, roll and fov within 5e-3 |
| CameraRoundTrip.BuildThenParse | scripts/camera.js:54-62 | round trip: the parser accepts every built descriptor and recovers the intended camera, with position within 5e-5 and roll and fov within 5e-3 |
| Camera.BuildCameraDescriptor | scripts/camera.js:54-62 | `buildCameraDescriptor`: the text starts with `x`; CameraRoundTrip.BuildThenParse states what it parses back to and Editor.BuiltShape its shape as a path segment |
| CameraRoundTrip.RenderShape | scripts/camera.js:2 | every sentence starts with `x` or `X` and ends in a digit |
| CameraRoundTrip.AcceptedShape | scripts/camera.js:34-42 | every accepted descriptor, once stripped of whitespace, starts with `x` or `X` and ends in a digit |
| CameraRoundTrip.RejectedNoDigitEnd | scripts/camera.js:39-41 | whitespace-free text that does not end in a digit is rejected |
| CameraRoundTrip.PlaceholderParses | earth-view/editor/editor.js:318 | the editor's placeholder `x0y0z4def0-zoom45` parses to position (0,0,4), roll 0, fov 45 |
| CameraRoundTrip.ZoomGroupParses | scripts/camera.js:50 | adding a `-zoom` group to a zoomless sentence gives the clamped zoom value as the fov |
| CameraRoundTrip.WideZoomClamped | scripts/camera.js:19-24 | `-zoom120` gives fov 90 |
| CameraRoundTrip.ZeroZoomClamped | scripts/camera.js:19-24 | `-zoom0` gives fov 15 |
| CameraRoundTrip.UpperCaseZoom | scripts/camera.js:2 | the group is matched without regard to case: `-ZOOM120` gives fov 90 |
| CameraRoundTrip.TruncatedRejected | scripts/camera.js:35-41 | `x1y2z` and the empty descriptor give null |
| CameraRoundTrip.ZoomWithoutNumberRejected | scripts/camera.js:2 | a `-zoom` with no number after it makes the descriptor invalid |
| Globe.ModeNamed | scripts/main.js:208-212 | the corrected lookup: each of search, focusing, locked and free selects its own mode, and every other name selects free |
| Globe.ModeNamedName | scripts/main.js:37-42 | every mode's name is a key of the table and selects that mode |
| Globe.SpeedsOf | scripts/main.js:37-42 | every mode has a non-negative earth speed and a positive cloud speed; the earth stands still exactly in locked mode |
| Globe.SearchIsFastest | scripts/main.js:37-42 | no mode turns the earth or the clouds faster than search |
| Globe.LookupAsWritten | scripts/main.js:209 | `rotationModes[name]` is a row exactly for the four mode names, and a truthy inherited member exactly for the inherited property names |
| Globe.ModeNameAsWritten | scripts/main.js:208-212 | as written, an inherited property name passes the guard and is stored as the mode |
| Globe.InheritedNameStopsTheGlobe | scripts/main.js:371-373 | as written, after `setRotationMode("toString")` the next frame turns the earth by NaN |
| Globe.ModeNamedAgreesAsWritten | scripts/main.js:208-212 | outside the inherited names the code as written and the corrected lookup store the same mode and turn the earth by the same finite amount |
| Globe.EaseEnds | scripts/main.js:419 | the ease-out maps 0 to 0 and 1 to 1 |
| Globe.EaseOutCubic | scripts/main.js:419 | on [0, 1] the ease stays within [t, 1]: never behind linear progress and never past the end |
| Globe.EaseOnUnitInterval | scripts/main.js:419 | on [0, 1] the ease-out is monotone non-decreasing, stays in [0, 1] and is never behind linear progress |
| Globe.LerpConvex | scripts/main.js:438 | `lerpVectors` gives `from` at 0 and `to` at 1, and a point of the segment between them for every weight in [0, 1] |
| Globe.Lerp | scripts/main.js:438 | `lerpVectors` gives `from` at weight 0 and `to` at weight 1; Globe.LerpConvex adds that every weight in [0, 1] gives a point of the segment |
| Globe.Progress | scripts/main.js:435-436 | progress never exceeds 1, reaches 1 exactly once the duration has elapsed, is 0 at the start and is non-negative after it |
| Globe.Advance | scripts/main.js:371-381 | a frame turns the earth and the clouds forward for non-negative time, never turns the earth in locked mode, and leaves hidden search effects still |
| Globe.ResolveUserLocation | scripts/main.js:467-496 | the device fix when there is one; otherwise the IP fix exactly when both its coordinates are finite; otherwise none |
| Globe.Viewer.constructor | scripts/main.js:33-118 | start state: camera at (0, 0.25, 3.6) aimed at the origin, fov 45, no roll, no transition, search mode with its effects shown |
| Globe.Viewer.SetRotationMode | scripts/main.js:208-214 | the mode becomes the corrected lookup of the name; the search effects are shown exactly when the name is `search` |
| Globe.Viewer.StartCameraTransition | scripts/main.js:421-429 | the slot holds exactly one new transition, from the current position to the target, replacing any previous one |
| Globe.Viewer.RunCompletion | scripts/main.js:443-445 | the callback runs once and is recorded; it switches the mode or starts a new transition from where the camera stands |
| Globe.Viewer.UpdateCameraTransition | scripts/main.js:431-447 | no slot: nothing changes. Otherwise the camera moves to the eased interpolation, on the segment from `from` to `to`. Before the end the slot stays. At the end the camera is at `to`, and the slot is cleared before the callback runs exactly once, so a transition the callback starts survives |
| Globe.Viewer.Tick | scripts/main.js:368-382 | one frame: the spin advances by the mode's speeds, then the transition is updated as above |
| Globe.Viewer.Frame | scripts/main.js:368-386 | the corrected frame, with everything Tick states: the spin advances by the mode's speeds; with no transition the position, mode and completions are kept; otherwise the camera moves to the eased interpolation, and at the end it is at `to`, the slot is cleared and the callback runs once. Then the camera keeps the roll its descriptor asked for; fov, roll setting, target and marker are untouched |
| Globe.Viewer.FrameAsWritten | scripts/main.js:383 | as written: everything the corrected Frame states about spin, transition, position, mode, completions, fov, roll setting, target and marker, except that `camera.lookAt` leaves the camera without roll after every frame |
| Globe.Viewer.ApplyCameraDescriptor | scripts/main.js:388-400 | a descriptor that fails to parse changes nothing; one that parses sets position, fov and roll to the parsed values and aims the camera at the origin |
| Globe.Viewer.ApplyParsed | scripts/main.js:393-399 | the same, given the parse result |
| Globe.Viewer.Init | scripts/main.js:568-582 | a path descriptor that parses is applied (position, fov and roll from the descriptor, aimed at the origin) and selects free mode without auto-framing; otherwise position, fov, roll, shown roll and target are untouched, the mode is search and the marker will frame the camera. The transition slot, spin, marker and completions are untouched either way |
| Globe.Viewer.InitWith | scripts/main.js:573-582 | the same, given the parse of the path's descriptor |
| Globe.Viewer.PlaceUserMarkerStart | scripts/main.js:498-502 | auto-framing enters search mode; without it the mode is kept |
| Globe.Viewer.PlaceUserMarkerResume | scripts/main.js:503-560 | no location: free mode, with target, transition and marker kept. A location places the marker. With auto-framing it selects focusing, aims at the location and starts the framing flight, whose callback selects locked. Without auto-framing it aims at the origin and selects free. Position, fov, roll, shown roll, spin and completions never change |
| Globe.StartupModes | scripts/main.js:563-583 | the modes after init, after PlaceUserMarkerStart, after PlaceUserMarkerResume, and after one Frame at the end of the flight (start time plus 2600 ms). A parsed path descriptor gives free throughout. The location is ResolveUserLocation of the device's and the IP lookup's answers. Otherwise: search, search, free, free when no location is found; search, search, focusing, locked when one is found |
| Globe.StartupModesWith | scripts/main.js:569-582 | the same, given the parse of the path's descriptor |
| Globe.MarkerModes | scripts/main.js:498-561 | the modes after PlaceUserMarkerStart, after PlaceUserMarkerResume and after one Frame at the end of the flight: free, free, free without auto-framing; with it search, free, free when unresolved, or search, focusing, locked when found |
| Globe.RollAfterFirstFrame | scripts/main.js:383-399 | for a path descriptor that parses, the roll left after the first frame is 0 as written and the requested roll with the correction |
| Globe.RollAfterFirstFrameWith | scripts/main.js:383-399 | the same, given the parse result |
| Roughness.InvertedPixels | scripts/main.js:270-276 | the buffer after the pass: same length; in each group of four, R, G and B become 255 minus the group's old R and A is kept |
| Roughness.InvertRoughness | scripts/main.js:270-276 | the in-place loop leaves the array equal to the pass applied to its old contents |
| Roughness.CreateRoughnessMap | scripts/main.js:258-282 | no map without an image; otherwise a new buffer holding the image's pixels after the pass |
| Roughness.PixelChannels | scripts/main.js:271-275 | every whole pixel gets R = G = B = 255 - old R and keeps its alpha |
| Roughness.Grey | scripts/main.js:273-275 | within a pixel, green and blue equal red after the pass |
| Roughness.TwiceRestoresRed | scripts/main.js:270-276 | a second pass restores the old red in every colour channel and keeps alpha |
| Roughness.TwiceOnGrey | scripts/main.js:270-276 | an image whose colour channels already agree comes back unchanged after two passes |
| Editor.FormatNumberReadsBack | earth-view/editor/editor.js:250-255 | a label is the text of a numeral with at most three decimals, not ending in `.` or a fractional `0`, within 5e-4 of the coordinate, or of 0 for a non-finite one |
| Editor.LabelNumeral | earth-view/editor/editor.js:250-255 | the label is `sanitizeNumber` at three decimals |
| Editor.FormatNumber | earth-view/editor/editor.js:250-255 | `formatNumber`: `0` for a non-finite value; a label is never empty, never ends in `.` and never ends in a fractional `0` |
| Editor.Root | earth-view/editor/editor.js:258-259 | the link root is empty for an empty trimmed base and `/base` otherwise |
| Editor.BuildPreview | earth-view/editor/editor.js:257-264 | the link always starts with `/`. It is `root/descriptor` for a descriptor, and for none it is the root, or `/` when the root is empty |
| Editor.PreviewRoundTrip | earth-view/editor/editor.js:257-264 | extracting from the link gives back any slash-free descriptor other than `earth-view` |
| Editor.EmptyPreview | earth-view/editor/editor.js:260-262 | the link for no descriptor extracts to no descriptor |
| Editor.BuiltShape | earth-view/editor/editor.js:271-275 | every built descriptor is a single non-empty path segment starting with `x`, and never `earth-view` |
| Editor.PreviewOpensCamera | earth-view/editor/editor.js:266-278 | the viewer extracts the shown descriptor from the shown link, and it parses back to the editor's camera within the rounding |
| Editor.ReloadIsStable | earth-view/editor/editor.js:271-277 | a camera with fov in range, written and parsed again, comes back within the rounding |
| Editor.RemoveFirstHash | earth-view/editor/editor.js:346 | text without `#` is unchanged, and text with one loses exactly one character |
| Editor.RemoveFirstHashSplit | earth-view/editor/editor.js:346 | the character removed is the first `#`, and the text before and after it is kept |
| Editor.HashText | earth-view/editor/editor.js:346 | the hash `#text` gives `text` |
| Editor.DescriptorSource | earth-view/editor/editor.js:345-347 | the descriptor is the `camera` parameter if non-empty, else the `code` parameter if non-empty, else the hash without its first `#` |
| Editor.SourceEmptyExactly | earth-view/editor/editor.js:347-350 | there is no descriptor exactly when both parameters are missing or empty and the hash is empty or `#` |
| Editor.Updated | earth-view/editor/editor.js:266-279 | `updateDescriptor` rewrites labels, descriptor and link from the camera, and changes nothing else |
| Editor.ControlsChangedSyncs | earth-view/editor/editor.js:281-283 | an orbit move leaves the outputs describing the new position, with roll, fov and the error mark kept |
| Editor.RollInputSyncs | earth-view/editor/editor.js:285-289 | the roll becomes the input's number, or 0 for 0 and NaN; the outputs follow; nothing else changes |
| Editor.FovInputSyncs | earth-view/editor/editor.js:291-297 | state and camera fov become the input's number, or 45 for 0 and NaN, unclamped; the outputs follow |
| Editor.AcceptedLoadSyncs | earth-view/editor/editor.js:317-330 | an accepted descriptor clears the error mark, sets roll and fov to exactly the parsed values and the position to where the orbit controls place it; the outputs follow |
| Editor.RejectedLoad | earth-view/editor/editor.js:311-315 | a rejected descriptor only marks the input box |
| Editor.DescriptorTypedClears | earth-view/editor/editor.js:333-335 | typing in the descriptor box clears the error mark and changes nothing else, so a synced page stays synced; after a rejected load it gives back the page as it was, unmarked |
| Editor.InitSyncs | earth-view/editor/editor.js:365-373 | after the query is loaded and the descriptor updated, the outputs describe the camera |
| Editor.SyncedPageOpensCamera | earth-view/editor/editor.js:266-279 | in an up-to-date page the link opens the shown descriptor, which parses back to the camera within the rounding, with fov clamped |
| Editor.LoadedReadsBack | earth-view/editor/editor.js:310-331 | after loading a camera with fov in range, the written descriptor parses back, within the rounding, to that camera at the position the orbit controls left it; to the loaded camera itself when they left it in place |
| Editor.EditorState.constructor | earth-view/editor/editor.js:39-76 | camera at (0, 1.5, 4.2) with fov 45, state roll 0 and fov 45, nothing written, no error mark |
| Editor.EditorState.UpdateDescriptor | earth-view/editor/editor.js:266-279 | the page becomes Updated of the old page |
| Editor.EditorState.OnControlsChange | earth-view/editor/editor.js:281-283 | the page becomes ControlsChanged of the old page |
| Editor.EditorState.OnRollInput | earth-view/editor/editor.js:285-289 | the page becomes RollInput of the old page |
| Editor.EditorState.OnFovInput | earth-view/editor/editor.js:291-297 | the page becomes FovInput of the old page |
| Editor.EditorState.OnDescriptorInput | earth-view/editor/editor.js:333-335 | the page becomes DescriptorTyped of the old page: only the error mark changes, to cleared |
| Editor.EditorState.TakeCamera | earth-view/editor/editor.js:353-358 | camera position, state roll, and state and camera fov take the parsed values; the outputs are kept |
| Editor.EditorState.OnLoadDescriptor | earth-view/editor/editor.js:310-331 | the page becomes Loaded of the old page with the parse of the trimmed input and the position the orbit controls settle on |
| Editor.EditorState.LoadParsed | earth-view/editor/editor.js:312-330 | the same, given the parse result |
| Editor.EditorState.LoadDescriptorFromQuery | earth-view/editor/editor.js:344-363 | a descriptor from the chosen source that parses is taken; a missing or unparsable one changes nothing |
| Editor.EditorState.Init | earth-view/editor/editor.js:365-373 | the query descriptor is loaded, then the outputs are written for the resulting camera |

## Left out

- Three.js scene, materials, shaders, lights, the renderer, textures and
  texture loading, the starfield and resizing: these are declarative library
  calls and network I/O.
- Orientation is reduced to one number, `viewRoll`, the rotation about the
  line of sight. `lookAt`, `rotateZ` and `applyRoll` quaternion maths are not
  modelled, and neither is the `lookAt` inside `updateCameraTransition`.
- `latLonToVector3` and the framing target (scripts/main.js:408-415,
  538-549) are trigonometric. The location point and the framing target are
  parameters of `Globe.Viewer.PlaceUserMarkerResume`.
- Geolocation and the IP lookup are asynchronous browser and network calls.
  Their answers are the parameters of `Globe.ResolveUserLocation`, and
  `placeUserMarker` is split at its `await` into `PlaceUserMarkerStart` and
  `PlaceUserMarkerResume`.
- Status banner messages and timers, the marker and halo meshes, the
  clipboard button and the OrbitControls handlers are DOM or timer work. The
  halo is static.
- `performance.now()` and `clock.getDelta()` are parameters (`now`,
  `delta`).
- Completion callbacks are a closed datatype: switch the mode (the code's
  only callback, `setRotationMode('locked')`) or start a new transition.
- Globe.Viewer.UpdateCameraTransition: a transition's duration must be
  positive. The code's default is 2600 ms, and a zero duration at zero
  elapsed time would give NaN progress in IEEE arithmetic.
- Numbers are exact reals, not IEEE doubles. Not modelled:
  - `toFixed` switching to exponent notation from 1e21;
  - `parseFloat` overflowing to Infinity on huge digit strings;
  - the rounding of binary fractions;
  - `toFixed` rounding. It is modelled as round-half-up of the exact
    decimal value, so `-0.00001` gives `-0`, as in JavaScript.
- `Number(text)` of the editor's slider inputs is a `Num` parameter.
- Only ASCII letters are folded by the case-insensitive match, as with a
  non-Unicode JavaScript regular expression.
- The editor's slider texts (`rollValue`, `fovValue`, `Math.round`) and the
  copies back into the slider inputs are DOM updates; `controls.saveState`
  only records the orbit controls' reset point.
- The orbit controls' `update` (earth-view/editor/editor.js:328) moves a
  loaded camera back within their limits: distance 1.6 to 10 and polar angle
  0.2 to pi - 0.2 (earth-view/editor/editor.js:45-48). The clamp is
  trigonometric library code; the position it yields is the parameter
  `placed`. Editor.AcceptedLoadSyncs, Editor.LoadedReadsBack,
  Editor.EditorState.OnLoadDescriptor and Editor.EditorState.LoadParsed take
  it as given.
- Editor.EditorState.Init writes the query camera's position unclamped. The
  controls clamp it on the first render (earth-view/editor/editor.js:245),
  which reaches the page as a change event (earth-view/editor/editor.js:281),
  modelled by Editor.EditorState.OnControlsChange.
- Globe.Viewer.Init is modelled up to the `await` of `placeUserMarker`.
  Applying the descriptor reuses the parse result instead of parsing the
  same text a second time; the result is the same.
- Roughness.CreateRoughnessMap: the canvas is not modelled. The image is
  `Option<seq<byte>>` of its RGBA bytes, and writes past a buffer's end are
  ignored, as typed arrays ignore them.

## Findings

| source | as written | input that shows it | evidently intended | confidence | as-written member | corrected member |
|---|---|---|---|---|---|---|
| scripts/main.js:208-214 | `if (!rotationModes[mode])` treats any truthy property as a mode, including those every object inherits; then `speeds.earth` is undefined at line 373 | `setRotationMode('toString')`, after which every frame turns the earth by NaN. The defect is latent: `setRotationMode` is not exported, and every call in scripts/main.js (lines 500, 505, 537, 552, 558, 576, 578) passes one of the four mode names | any name other than the four modes selects `free` | not executed | Globe.InheritedNameStopsTheGlobe | Globe.ModeNamed |
| scripts/main.js:383 | every frame calls `camera.lookAt(cameraTarget)`, which rebuilds the orientation with no roll and undoes the `rotateZ` of `applyCameraDescriptor` (line 399) | the path `/x0y0z4def30-zoom45`: roll 30 is requested, and 0 is shown from the first frame on | the descriptor's roll stays applied | not executed | Globe.Viewer.FrameAsWritten | Globe.Viewer.Frame |
