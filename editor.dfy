/**
 * The camera editor: a page that shows the globe under orbit controls, keeps
 * the descriptor of the current camera and the viewer link it opens, and
 * loads a descriptor typed in or given in the page's query or hash.
 */
module Editor {
  import opened Base
  import opened Decimal
  import opened Camera
  import opened CameraRoundTrip

  /** The editor camera's starting position. */
  const StartPosition: Vec3 := Vec3(0.0, 1.5, 4.2)

  // ---------------------------------------------------------------------------
  // Text shown by the editor

  /**
   * `formatNumber`: the coordinate labels. "0" for a non-finite value,
   * otherwise toFixed(3) with the trailing zeros, and a point left bare, cut
   * off: the rule sanitizeNumber applies, at three decimals.
   */
  function FormatNumber(value: Num): (text: string)
    ensures text != [] && text[|text| - 1] != '.'
    ensures '.' in text ==> text[|text| - 1] != '0'
    ensures !value.IsFinite() ==> text == "0"
  {
    SanitizeNumberShape(value, 3);
    SanitizeNumber(value, 3)
  }

  /**
   * A label is the text of a numeral with at most three decimals, never
   * ending in '.' or in a fractional '0', that reads back within half a
   * thousandth of the coordinate; a non-finite coordinate reads "0".
   */
  lemma FormatNumberReadsBack(value: Num)
    ensures var text := FormatNumber(value);
      && text != [] && text[|text| - 1] != '.' && ('.' in text ==> text[|text| - 1] != '0')
      && exists n: Numeral :: n.WellFormed() && n.Text() == text && |n.fraction| <= 3
           && Within(n.ToReal(), FiniteOr(value, 0.0), 0.0005)
  {
    SanitizeNumberShape(value, 3);
    LabelNumeral(value);
  }

  /** The numeral behind a label. */
  lemma LabelNumeral(value: Num)
    ensures var n := NumeralOf(value, 3);
      n.Text() == FormatNumber(value) && |n.fraction| <= 3 && Within(n.ToReal(), FiniteOr(value, 0.0), 0.0005)
  {
    SanitizeNumeral(value, 3);
    NumeralOfError(value, 3);
    assert ScaleDown(1, 3) == 0.001;
    if value.IsFinite() {
      PointNumeralShape(value.value < 0.0, FixedDigits(Scaled(value.value, 3), 3), 3);
    }
  }

  /** The link root: `/` and the trimmed site base, or nothing without one. */
  function Root(siteBase: Option<string>): (root: string)
    ensures SiteBase(siteBase) == "" ==> root == ""
    ensures SiteBase(siteBase) != "" ==> root == "/" + SiteBase(siteBase)
  {
    var base := SiteBase(siteBase);
    if base != "" then "/" + base else ""
  }

  /**
   * `buildPreview`: the viewer path of a descriptor, below the site base;
   * the root itself (or `/`) for the empty descriptor.
   */
  function BuildPreview(descriptor: string, siteBase: Option<string>): (r: string)
    ensures r != [] && r[0] == '/'
    ensures descriptor != "" ==> r == Root(siteBase) + "/" + descriptor
    ensures descriptor == "" ==> r == (if Root(siteBase) != "" then Root(siteBase) else "/")
  {
    var root := Root(siteBase);
    if descriptor == "" then
      if root != "" then root else "/"
    else
      root + "/" + descriptor
  }

  lemma {:induction false} SplitSlashFree(s: string)
    requires '/' !in s
    ensures SplitPath(s) == [s]
  {
    if s != [] {
      assert '/' !in s[1..] by {
        assert forall i :: 0 <= i < |s[1..]| ==> s[1..][i] == s[i + 1];
      }
      SplitSlashFree(s[1..]);
      assert [s[0]] + s[1..] == s;
    }
  }

  /** A non-empty name without a slash is a path of one segment. */
  lemma OneSegment(s: string)
    requires s != "" && '/' !in s
    ensures Segments(s) == [s] && Segments("/" + s) == [s]
  {
    SplitSlashFree(s);
    SplitAfterSegment([], s);
    assert [] + "/" + s == "/" + s;
    NonEmptyCons([], [s]);
    NonEmptyCons(s, []);
  }

  /**
   * The link the editor shows opens the viewer on the same descriptor: the
   * viewer's extraction, under the same site base, gives back what the
   * editor wrote. A descriptor that is a single segment and not the
   * `earth-view` sentinel is kept whole; the site base is one segment.
   */
  lemma PreviewRoundTrip(descriptor: string, siteBase: Option<string>)
    requires '/' !in descriptor && descriptor != "earth-view"
    requires '/' !in SiteBase(siteBase)
    ensures ExtractDescriptorFromPath(BuildPreview(descriptor, siteBase), siteBase) == descriptor
  {
    if descriptor == "" {
      EmptyPreview(siteBase);
    } else {
      OneSegment(descriptor);
      assert Join([descriptor]) == descriptor + Join([]);
      assert ExtractDescriptorFromPath(descriptor, None) == descriptor by {
        assert SegmentsBelowBase(descriptor, None) == [descriptor];
      }
      if SiteBase(siteBase) == "" {
        assert BuildPreview(descriptor, siteBase) == "/" + descriptor;
        assert SegmentsBelowBase("/" + descriptor, siteBase) == [descriptor];
      } else {
        assert BuildPreview(descriptor, siteBase) == "/" + SiteBase(siteBase) + "/" + descriptor;
        ExtractBelowBase(descriptor, siteBase);
      }
    }
  }

  /** The link of the empty descriptor opens the viewer without one. */
  lemma EmptyPreview(siteBase: Option<string>)
    requires '/' !in SiteBase(siteBase)
    ensures ExtractDescriptorFromPath(BuildPreview("", siteBase), siteBase) == ""
  {
    var base := SiteBase(siteBase);
    if base == "" {
      assert BuildPreview("", siteBase) == "/";
      RootHasNoSegments();
    } else {
      assert BuildPreview("", siteBase) == "/" + base;
      OneSegment(base);
      assert SegmentsBelowBase("/" + base, siteBase) == [];
    }
  }

  lemma RootHasNoSegments()
    ensures Segments("/") == []
  {
    assert "/"[0] == '/' && "/"[1..] == [];
    assert SplitPath("/") == [[], []];
    NonEmptyCons([], [[]]);
    NonEmptyCons([], []);
  }

  lemma NumeralSlashFree(n: Numeral)
    requires n.WellFormed()
    ensures '/' !in n.Text()
  {
    assert '/' !in n.whole && '/' !in PointFraction(n.fraction);
  }

  lemma SpelledSlashFree(t: string, literal: string)
    requires Spells(t, literal) && '/' !in literal
    ensures '/' !in t
  {
    forall i | 0 <= i < |t| ensures t[i] != '/' {
      assert AsciiLower(t[i]) == literal[i];
    }
  }

  /** No sentence of the descriptor grammar contains a slash. */
  lemma RenderSlashFree(d: Descriptor)
    requires d.WellFormed()
    ensures '/' !in d.Render()
  {
    SpelledSlashFree(d.xTag, "x");
    SpelledSlashFree(d.yTag, "y");
    SpelledSlashFree(d.zTag, "z");
    SpelledSlashFree(d.defTag, "def");
    NumeralSlashFree(d.x);
    NumeralSlashFree(d.y);
    NumeralSlashFree(d.z);
    NumeralSlashFree(d.roll);
    if d.zoom.Some? {
      SpelledSlashFree(d.zoom.value.tag, "-zoom");
      NumeralSlashFree(d.zoom.value.fov);
    }
  }

  /** What the serialiser writes is one path segment starting with `x`, never the `earth-view` sentinel. */
  lemma BuiltShape(position: Option<Position>, rollDeg: Num, fov: Option<Num>)
    ensures var d := BuildCameraDescriptor(position, rollDeg, fov);
      d != [] && AsciiLower(d[0]) == 'x' && '/' !in d && d != "earth-view"
  {
    BuildIsRender(position, rollDeg, fov);
    RenderedSegment(BuiltDescriptor(position, rollDeg, fov));
  }

  /** Every sentence of the grammar is one path segment starting with `x`, never the `earth-view` sentinel. */
  lemma RenderedSegment(d: Descriptor)
    requires d.WellFormed()
    ensures var r := d.Render(); r != [] && AsciiLower(r[0]) == 'x' && '/' !in r && r != "earth-view"
  {
    RenderShape(d);
    RenderSlashFree(d);
    assert "earth-view"[0] == 'e';
  }

  /** The camera of a position given as plain coordinates, as the editor passes it to the serialiser. */
  function PositionOf(v: Vec3): Position {
    Position(Finite(v.x), Finite(v.y), Finite(v.z))
  }

  /**
   * End to end: the viewer, opened on the editor's link, extracts the
   * editor's descriptor, accepts it, and shows the editor's camera to the
   * precision the descriptor keeps.
   */
  lemma PreviewOpensCamera(position: Vec3, rollDeg: Num, fov: Num, siteBase: Option<string>)
    requires '/' !in SiteBase(siteBase)
    ensures var descriptor := BuildCameraDescriptor(Some(PositionOf(position)), rollDeg, Some(fov));
      && ExtractDescriptorFromPath(BuildPreview(descriptor, siteBase), siteBase) == descriptor
      && ParseCameraDescriptor(descriptor).Some?
      && Close(ParseCameraDescriptor(descriptor).value, Intended(Some(PositionOf(position)), rollDeg, Some(fov)))
  {
    var descriptor := BuildCameraDescriptor(Some(PositionOf(position)), rollDeg, Some(fov));
    BuiltShape(Some(PositionOf(position)), rollDeg, Some(fov));
    PreviewRoundTrip(descriptor, siteBase);
    BuildThenParse(Some(PositionOf(position)), rollDeg, Some(fov));
  }

  /**
   * A camera read from a descriptor and written out again comes back to
   * itself up to rounding: loading and re-exporting is stable.
   */
  lemma ReloadIsStable(c: CameraState)
    requires MinFov <= c.fov <= MaxFov
    ensures var again := ParseCameraDescriptor(BuildCameraDescriptor(Some(PositionOf(c.position)), Finite(c.rollDeg), Some(Finite(c.fov))));
      again.Some? && Close(again.value, c)
  {
    BuildThenParse(Some(PositionOf(c.position)), Finite(c.rollDeg), Some(Finite(c.fov)));
    assert Intended(Some(PositionOf(c.position)), Finite(c.rollDeg), Some(Finite(c.fov))) == c;
  }

  // ---------------------------------------------------------------------------
  // Where a descriptor given to the page comes from

  /** `s.replace('#', '')`: the string without its first '#', if it has one. */
  function RemoveFirstHash(s: string): (r: string)
    ensures '#' !in s ==> r == s
    ensures '#' in s ==> |r| == |s| - 1
  {
    if s == [] then []
    else if s[0] == '#' then s[1..]
    else
      assert s == [s[0]] + s[1..];
      [s[0]] + RemoveFirstHash(s[1..])
  }

  /** What is removed is the first '#': the text before it is kept, and so is the text after it. */
  lemma {:induction false} RemoveFirstHashSplit(s: string, i: nat)
    requires i < |s| && s[i] == '#' && '#' !in s[..i]
    ensures RemoveFirstHash(s) == s[..i] + s[i + 1..]
  {
    if i > 0 {
      assert s[0] in s[..i];
      assert s[1..][..i - 1] == s[1..i];
      assert '#' !in s[1..][..i - 1] by {
        assert forall c :: c in s[1..i] ==> c in s[..i];
      }
      RemoveFirstHashSplit(s[1..], i - 1);
      assert s[..i] == [s[0]] + s[1..i];
    }
  }

  /** A location hash `#text` gives `text`. */
  lemma HashText(text: string)
    ensures RemoveFirstHash("#" + text) == text
  {
    assert ("#" + text)[1..] == text;
  }

  /**
   * The descriptor of `loadDescriptorFromQuery`: the `camera` parameter, else
   * the `code` parameter, else the hash without its '#'; a missing or empty
   * candidate gives way to the next, and "" means there is none.
   */
  function DescriptorSource(camera: Option<string>, code: Option<string>, hash: string): (value: string)
    ensures camera.Some? && camera.value != "" ==> value == camera.value
    ensures (camera.None? || camera.value == "") && code.Some? && code.value != "" ==> value == code.value
    ensures (camera.None? || camera.value == "") && (code.None? || code.value == "") ==> value == RemoveFirstHash(hash)
  {
    if camera.Some? && camera.value != "" then camera.value
    else if code.Some? && code.value != "" then code.value
    else RemoveFirstHash(hash)
  }

  /** The page offers a descriptor exactly when one of its three places holds a non-empty one. */
  lemma SourceEmptyExactly(camera: Option<string>, code: Option<string>, hash: string)
    ensures DescriptorSource(camera, code, hash) == ""
        <==> (camera.None? || camera.value == "") && (code.None? || code.value == "")
             && (hash == "" || hash == "#")
  {
    if (camera.None? || camera.value == "") && (code.None? || code.value == "") {
      if hash != "" && hash != "#" {
        if '#' in hash {
          var r := RemoveFirstHash(hash);
          assert |r| == |hash| - 1;
        }
      } else if hash == "#" {
        HashText("");
      }
    }
  }

  // ---------------------------------------------------------------------------
  // The page state

  /**
   * What updateDescriptor writes: the descriptor kept in the page state, the
   * link shown in the output box, and the three coordinate labels.
   */
  datatype Outputs = Outputs(descriptor: string, preview: string, coordX: string, coordY: string, coordZ: string)

  /** The outputs for a camera at `position` with roll `rollDeg` and field of view `fov`. */
  function OutputsFor(position: Vec3, rollDeg: Num, fov: Num, siteBase: Option<string>): Outputs {
    var descriptor := BuildCameraDescriptor(Some(PositionOf(position)), rollDeg, Some(fov));
    Outputs(descriptor, BuildPreview(descriptor, siteBase),
            FormatNumber(Finite(position.x)), FormatNumber(Finite(position.y)), FormatNumber(Finite(position.z)))
  }

  /**
   * A snapshot of the page: the camera's position and field of view, the
   * `state` object's roll and field of view, what updateDescriptor last
   * wrote, and whether the load box is marked as an error.
   */
  datatype Page = Page(position: Vec3, cameraFov: Num, rollDeg: Num, fov: Num, outputs: Outputs, inputError: bool)

  /** The camera shows the field of view the state records. */
  predicate Consistent(p: Page) {
    p.cameraFov == p.fov
  }

  /** The descriptor, the link and the labels describe the current camera. */
  predicate Synced(p: Page, siteBase: Option<string>) {
    p.outputs == OutputsFor(p.position, p.rollDeg, p.fov, siteBase)
  }

  /** `updateDescriptor`: labels, descriptor and link rewritten from the camera; nothing else changes. */
  function Updated(p: Page, siteBase: Option<string>): (r: Page)
    ensures Synced(r, siteBase)
    ensures r.(outputs := p.outputs) == p
  {
    p.(outputs := OutputsFor(p.position, p.rollDeg, p.fov, siteBase))
  }

  /** The orbit controls moved the camera. */
  function ControlsChanged(p: Page, newPosition: Vec3, siteBase: Option<string>): Page {
    Updated(p.(position := newPosition), siteBase)
  }

  /** The roll slider: its number, with 0, -0 and NaN falling back to 0. */
  function RollInput(p: Page, n: Num, siteBase: Option<string>): Page {
    Updated(p.(rollDeg := Or(n, Finite(0.0))), siteBase)
  }

  /** The field-of-view slider: its number, 0, -0 and NaN falling back to 45, for the state and the camera. */
  function FovInput(p: Page, n: Num, siteBase: Option<string>): Page {
    var fov := Or(n, Finite(DefaultFov));
    Updated(p.(fov := fov, cameraFov := fov), siteBase)
  }

  /** Camera and state take a parsed camera; the outputs are left as they were. */
  function Take(p: Page, c: CameraState): Page {
    p.(position := c.position, rollDeg := Finite(c.rollDeg), fov := Finite(c.fov), cameraFov := Finite(c.fov))
  }

  /**
   * The load button, given the parse of the trimmed text: rejected, the box
   * is marked and nothing else changes; accepted, the mark is cleared, the
   * camera takes the parsed state, the orbit controls' update then leaves it
   * at `placed` (the parsed position, or the nearest one within their
   * distance and polar-angle limits), and the outputs are rewritten.
   */
  function Loaded(p: Page, parsed: Option<CameraState>, placed: Vec3, siteBase: Option<string>): Page {
    if parsed.None? then p.(inputError := true)
    else Updated(Take(p.(inputError := false), parsed.value).(position := placed), siteBase)
  }

  /** loadDescriptorFromQuery, given the parse of the page's descriptor: the outputs wait for the next update. */
  function QueryLoaded(p: Page, parsed: Option<CameraState>): Page {
    if parsed.None? then p else Take(p, parsed.value)
  }

  /** Moving the camera rewrites the outputs for the new position; nothing else changes. */
  lemma ControlsChangedSyncs(p: Page, newPosition: Vec3, siteBase: Option<string>)
    requires Consistent(p)
    ensures var q := ControlsChanged(p, newPosition, siteBase);
      Synced(q, siteBase) && Consistent(q) && q.position == newPosition
      && q.rollDeg == p.rollDeg && q.fov == p.fov && q.inputError == p.inputError
  {
  }

  /** The roll slider sets the roll, falling back to 0, and leaves the page synced. */
  lemma RollInputSyncs(p: Page, n: Num, siteBase: Option<string>)
    requires Consistent(p)
    ensures var q := RollInput(p, n, siteBase);
      Synced(q, siteBase) && Consistent(q) && q.rollDeg == Or(n, Finite(0.0))
      && q.position == p.position && q.fov == p.fov && q.inputError == p.inputError
  {
  }

  /** The field-of-view slider sets state and camera alike, falling back to 45, and leaves the page synced. */
  lemma FovInputSyncs(p: Page, n: Num, siteBase: Option<string>)
    ensures var q := FovInput(p, n, siteBase);
      Synced(q, siteBase) && Consistent(q) && q.fov == Or(n, Finite(DefaultFov))
      && q.position == p.position && q.rollDeg == p.rollDeg && q.inputError == p.inputError
  {
  }

  /**
   * An accepted load clears the mark, takes the parsed roll and field of view,
   * leaves the camera where the orbit controls placed it and leaves the page synced.
   */
  lemma AcceptedLoadSyncs(p: Page, c: CameraState, placed: Vec3, siteBase: Option<string>)
    ensures var q := Loaded(p, Some(c), placed, siteBase);
      Synced(q, siteBase) && Consistent(q) && !q.inputError && q.position == placed
      && q.rollDeg == Finite(c.rollDeg) && q.fov == Finite(c.fov)
  {
  }

  /** init leaves the page synced and consistent, whatever the query held. */
  lemma InitSyncs(p: Page, parsed: Option<CameraState>, siteBase: Option<string>)
    requires Consistent(p)
    ensures var q := Updated(QueryLoaded(p, parsed), siteBase);
      Synced(q, siteBase) && Consistent(q)
  {
  }

  /**
   * A rejected text marks the box and changes nothing else; the mark is
   * cleared by the next accepted text or by typing in the box.
   */
  lemma RejectedLoad(p: Page, placed: Vec3, siteBase: Option<string>)
    ensures Loaded(p, None, placed, siteBase) == p.(inputError := true)
  {
  }

  /** Typing in the descriptor box: the error mark is cleared, and only that. */
  function DescriptorTyped(p: Page): Page {
    p.(inputError := false)
  }

  /**
   * Typing clears the mark and keeps camera, state and outputs, so a synced
   * page stays synced; after a rejected load it gives back the page as it
   * was before, unmarked.
   */
  lemma DescriptorTypedClears(p: Page, placed: Vec3, siteBase: Option<string>)
    ensures var q := DescriptorTyped(p);
      && !q.inputError && q.(inputError := p.inputError) == p
      && (Synced(q, siteBase) <==> Synced(p, siteBase)) && (Consistent(q) <==> Consistent(p))
    ensures DescriptorTyped(Loaded(p, None, placed, siteBase)) == p.(inputError := false)
  {
  }

  /**
   * The descriptor a synced page shows, once loaded back, gives the camera
   * it was written from, up to rounding, and the link opens the viewer on it.
   */
  lemma SyncedPageOpensCamera(p: Page, siteBase: Option<string>)
    requires Synced(p, siteBase) && '/' !in SiteBase(siteBase)
    ensures ExtractDescriptorFromPath(p.outputs.preview, siteBase) == p.outputs.descriptor
    ensures var parsed := ParseCameraDescriptor(p.outputs.descriptor);
      parsed.Some? && Close(parsed.value, Intended(Some(PositionOf(p.position)), p.rollDeg, Some(p.fov)))
  {
    PreviewOpensCamera(p.position, p.rollDeg, p.fov, siteBase);
  }

  /**
   * After an accepted load, the page's new descriptor reads back as the loaded
   * camera at the place the orbit controls left it, up to rounding; in particular,
   * when the controls left it in place, it reads back as the loaded camera.
   */
  lemma LoadedReadsBack(p: Page, c: CameraState, placed: Vec3, siteBase: Option<string>)
    requires MinFov <= c.fov <= MaxFov
    ensures var parsed := ParseCameraDescriptor(Loaded(p, Some(c), placed, siteBase).outputs.descriptor);
      parsed.Some? && Close(parsed.value, c.(position := placed))
    ensures placed == c.position ==>
      var parsed := ParseCameraDescriptor(Loaded(p, Some(c), placed, siteBase).outputs.descriptor);
      parsed.Some? && Close(parsed.value, c)
  {
    ReloadIsStable(c.(position := placed));
  }

  /**
   * The editor page. Its fields are the page state the handlers change;
   * each handler is specified by the function of the same name above.
   */
  class EditorState {
    var position: Vec3
    var cameraFov: Num
    var rollDeg: Num
    var fov: Num
    var outputs: Outputs
    var inputError: bool
    const siteBase: Option<string>

    function Snapshot(): Page
      reads this
    {
      Page(position, cameraFov, rollDeg, fov, outputs, inputError)
    }

    constructor(siteBase: Option<string>)
      ensures Snapshot() == Page(StartPosition, Finite(DefaultFov), Finite(0.0), Finite(DefaultFov),
                                 Outputs("", "", "", "", ""), false)
      ensures this.siteBase == siteBase
    {
      position := StartPosition;
      cameraFov := Finite(DefaultFov);
      rollDeg := Finite(0.0);
      fov := Finite(DefaultFov);
      outputs := Outputs("", "", "", "", "");
      inputError := false;
      this.siteBase := siteBase;
    }

    /** `updateDescriptor` */
    method UpdateDescriptor()
      modifies this`outputs
      ensures Snapshot() == Updated(old(Snapshot()), siteBase)
    {
      ghost var before := Snapshot();
      Write(OutputsFor(position, rollDeg, fov, siteBase));
      assert Snapshot() == before.(outputs := OutputsFor(before.position, before.rollDeg, before.fov, siteBase));
    }

    method Write(written: Outputs)
      modifies this`outputs
      ensures Snapshot() == old(Snapshot()).(outputs := written)
    {
      outputs := written;
    }

    /** The orbit controls' `change` event, with the camera moved to `newPosition`. */
    method OnControlsChange(newPosition: Vec3)
      modifies this
      ensures Snapshot() == ControlsChanged(old(Snapshot()), newPosition, siteBase)
    {
      position := newPosition;
      assert Snapshot() == old(Snapshot()).(position := newPosition);
      UpdateDescriptor();
    }

    /** The descriptor box's `input` event. */
    method OnDescriptorInput()
      modifies this`inputError
      ensures Snapshot() == DescriptorTyped(old(Snapshot()))
    {
      inputError := false;
    }

    /** The roll slider's `input` event, with the slider's value as a number. */
    method OnRollInput(n: Num)
      modifies this
      ensures Snapshot() == RollInput(old(Snapshot()), n, siteBase)
    {
      rollDeg := Or(n, Finite(0.0));
      assert Snapshot() == old(Snapshot()).(rollDeg := Or(n, Finite(0.0)));
      UpdateDescriptor();
    }

    /** The field-of-view slider's `input` event, with the slider's value as a number. */
    method OnFovInput(n: Num)
      modifies this
      ensures Snapshot() == FovInput(old(Snapshot()), n, siteBase)
    {
      var value := Or(n, Finite(DefaultFov));
      fov := value;
      cameraFov := value;
      assert Snapshot() == old(Snapshot()).(fov := value, cameraFov := value);
      UpdateDescriptor();
    }

    method TakeCamera(c: CameraState)
      modifies this`position, this`rollDeg, this`fov, this`cameraFov
      ensures Snapshot() == Take(old(Snapshot()), c)
    {
      position := c.position;
      rollDeg := Finite(c.rollDeg);
      fov := Finite(c.fov);
      cameraFov := Finite(c.fov);
    }

    /**
     * The load button, with the text of the descriptor box and the position
     * the orbit controls' update leaves the loaded camera at.
     */
    method OnLoadDescriptor(input: string, placed: Vec3)
      modifies this
      ensures Snapshot() == Loaded(old(Snapshot()), ParseCameraDescriptor(Trim(input)), placed, siteBase)
    {
      LoadParsed(ParseCameraDescriptor(Trim(input)), placed);
    }

    method LoadParsed(parsed: Option<CameraState>, placed: Vec3)
      modifies this
      ensures Snapshot() == Loaded(old(Snapshot()), parsed, placed, siteBase)
    {
      if parsed.None? {
        inputError := true;
        return;
      }
      inputError := false;
      TakeCamera(parsed.value);
      // `controls.update()`: the camera is moved back within the orbit limits
      position := placed;
      UpdateDescriptor();
    }

    /** `loadDescriptorFromQuery`, with the `camera` and `code` query parameters and the location hash. */
    method LoadDescriptorFromQuery(camera: Option<string>, code: Option<string>, hash: string)
      modifies this`position, this`rollDeg, this`fov, this`cameraFov
      ensures Snapshot() == QueryLoaded(old(Snapshot()), ParseCameraDescriptor(DescriptorSource(camera, code, hash)))
    {
      var value := DescriptorSource(camera, code, hash);
      if value == "" {
        return;
      }
      var parsed := ParseCameraDescriptor(value);
      if parsed.Some? {
        TakeCamera(parsed.value);
      }
    }

    /** `init` after the textures: the query or hash descriptor, then a first update. */
    method Init(camera: Option<string>, code: Option<string>, hash: string)
      modifies this
      ensures Snapshot() == Updated(QueryLoaded(old(Snapshot()), ParseCameraDescriptor(DescriptorSource(camera, code, hash))), siteBase)
    {
      LoadDescriptorFromQuery(camera, code, hash);
      UpdateDescriptor();
    }
  }
}
