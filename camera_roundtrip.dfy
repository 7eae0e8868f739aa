/**
 * What the serialiser and the parser promise each other: every descriptor
 * buildCameraDescriptor writes is accepted by parseCameraDescriptor, which
 * recovers the camera up to the rounding the serialiser applied. Also a few
 * concrete descriptors, accepted and rejected.
 */
module CameraRoundTrip {
  import opened Base
  import opened Decimal
  import opened Camera

  /** Half a unit of the fourth decimal: the rounding error of a written coordinate. */
  const PositionTolerance: real := 0.00005
  /** Half a unit of the second decimal: the rounding error of a written angle. */
  const AngleTolerance: real := 0.005

  predicate Within(a: real, b: real, tolerance: real) {
    -tolerance <= a - b <= tolerance
  }

  /** The camera buildCameraDescriptor means to write, once its defaults are applied. */
  function Intended(position: Option<Position>, rollDeg: Num, fov: Option<Num>): (c: CameraState)
    ensures MinFov <= c.fov <= MaxFov
  {
    var pos := position.GetOr(Position(Finite(0.0), Finite(0.0), Finite(0.0)));
    CameraState(
      Vec3(FiniteOr(pos.x, 0.0), FiniteOr(pos.y, 0.0), FiniteOr(pos.z, 0.0)),
      FiniteOr(rollDeg, 0.0),
      ClampFov(fov.GetOr(Finite(DefaultFov))))
  }

  /** `a` and `b` agree to the precision the descriptor keeps. */
  predicate Close(a: CameraState, b: CameraState) {
    && Within(a.position.x, b.position.x, PositionTolerance)
    && Within(a.position.y, b.position.y, PositionTolerance)
    && Within(a.position.z, b.position.z, PositionTolerance)
    && Within(a.rollDeg, b.rollDeg, AngleTolerance)
    && Within(a.fov, b.fov, AngleTolerance)
  }

  /** The grammar sentence the serialiser writes: lower-case keywords and the `-zoom` group always present. */
  function BuiltDescriptor(position: Option<Position>, rollDeg: Num, fov: Option<Num>): (d: Descriptor)
    ensures d.WellFormed() && d.zoom.Some?
  {
    LowerSpells("x");
    LowerSpells("y");
    LowerSpells("z");
    LowerSpells("def");
    LowerSpells("-zoom");
    var pos := position.GetOr(Position(Finite(0.0), Finite(0.0), Finite(0.0)));
    var roll := if rollDeg.IsFinite() then rollDeg else Finite(0.0);
    var fieldOfView := ClampFov(fov.GetOr(Finite(DefaultFov)));
    Descriptor(
      "x", NumeralOf(pos.x, 4), "y", NumeralOf(pos.y, 4), "z", NumeralOf(pos.z, 4),
      "def", NumeralOf(roll, 2), Some(ZoomSuffix("-zoom", NumeralOf(Finite(fieldOfView), 2))))
  }

  lemma LowerSpells(literal: string)
    requires forall i :: 0 <= i < |literal| ==> !('A' <= literal[i] <= 'Z')
    ensures Spells(literal, literal)
  {
  }

  /** sanitizeNumber writes exactly the numeral NumeralOf describes. */
  lemma SanitizeNumeral(value: Num, decimals: nat)
    requires decimals >= 1
    ensures SanitizeNumber(value, decimals) == NumeralOf(value, decimals).Text()
  {
    if value.IsFinite() {
      SanitizeText(value.value, decimals);
    } else {
      assert Numeral(false, "0", "").Text() == "0";
    }
  }

  /** The value of a written number is within half a unit of its last place of the number (0 for a non-finite one). */
  lemma NumeralOfError(value: Num, decimals: nat)
    requires decimals >= 1
    ensures Within(NumeralOf(value, decimals).ToReal(), FiniteOr(value, 0.0), ScaleDown(1, decimals) / 2.0)
  {
    if value.IsFinite() {
      FormattedNumeralError(value.value, decimals);
    } else {
      assert Value("0" + "") == 0;
    }
  }

  lemma Regroup10(a: string, b: string, c: string, d: string, e: string,
                  f: string, g: string, h: string, i: string, j: string)
    ensures a + b + c + d + e + f + g + h + i + j == a + (b + (c + (d + (e + (f + (g + (h + (i + j))))))))
  {
  }

  /** buildCameraDescriptor writes the sentence BuiltDescriptor describes. */
  lemma BuildIsRender(position: Option<Position>, rollDeg: Num, fov: Option<Num>)
    ensures BuildCameraDescriptor(position, rollDeg, fov) == BuiltDescriptor(position, rollDeg, fov).Render()
  {
    var pos := position.GetOr(Position(Finite(0.0), Finite(0.0), Finite(0.0)));
    var roll := if rollDeg.IsFinite() then rollDeg else Finite(0.0);
    var fieldOfView := Finite(ClampFov(fov.GetOr(Finite(DefaultFov))));
    SanitizeNumeral(pos.x, 4);
    SanitizeNumeral(pos.y, 4);
    SanitizeNumeral(pos.z, 4);
    SanitizeNumeral(roll, 2);
    SanitizeNumeral(fieldOfView, 2);
    Regroup10("x", SanitizeNumber(pos.x, 4), "y", SanitizeNumber(pos.y, 4), "z", SanitizeNumber(pos.z, 4),
              "def", SanitizeNumber(roll, 2), "-zoom", SanitizeNumber(fieldOfView, 2));
  }

  lemma Tolerances()
    ensures ScaleDown(1, 4) / 2.0 == PositionTolerance
    ensures ScaleDown(1, 2) / 2.0 == AngleTolerance
  {
    assert ScaleDown(1, 2) == 0.01;
    assert ScaleDown(1, 4) == 0.0001;
  }

  /**
   * Every descriptor the serialiser writes is accepted by the parser, and the
   * parsed camera is the intended one to four decimals for the position and
   * two for the roll and the field of view.
   */
  lemma BuildThenParse(position: Option<Position>, rollDeg: Num, fov: Option<Num>)
    ensures var parsed := ParseCameraDescriptor(BuildCameraDescriptor(position, rollDeg, fov));
      parsed.Some? && Close(parsed.value, Intended(position, rollDeg, fov))
  {
    BuildIsRender(position, rollDeg, fov);
    ParseRendered(BuiltDescriptor(position, rollDeg, fov));
    BuiltIsClose(position, rollDeg, fov);
  }

  /** The camera the written sentence stands for is the intended one, up to the rounding. */
  lemma BuiltIsClose(position: Option<Position>, rollDeg: Num, fov: Option<Num>)
    ensures Close(Interpret(BuiltDescriptor(position, rollDeg, fov)), Intended(position, rollDeg, fov))
  {
    Tolerances();
    var pos := position.GetOr(Position(Finite(0.0), Finite(0.0), Finite(0.0)));
    var roll := if rollDeg.IsFinite() then rollDeg else Finite(0.0);
    var fieldOfView := ClampFov(fov.GetOr(Finite(DefaultFov)));
    NumeralOfError(pos.x, 4);
    NumeralOfError(pos.y, 4);
    NumeralOfError(pos.z, 4);
    NumeralOfError(roll, 2);
    NumeralOfError(Finite(fieldOfView), 2);
    ClampFovNonExpansive(NumeralOf(Finite(fieldOfView), 2).ToReal(), fieldOfView);
  }

  /** The serialiser's output is always a sentence of the descriptor grammar. */
  lemma BuildMatchesGrammar(position: Option<Position>, rollDeg: Num, fov: Option<Num>)
    ensures MatchesGrammar(BuildCameraDescriptor(position, rollDeg, fov))
  {
    BuildIsRender(position, rollDeg, fov);
  }

  // ---------------------------------------------------------------------------
  // What every accepted descriptor looks like

  predicate EndsInDigit(t: string) {
    |t| >= 1 && IsDigit(t[|t| - 1])
  }

  lemma NumeralEndsInDigit(n: Numeral)
    requires n.WellFormed()
    ensures EndsInDigit(n.Text())
  {
    var t := n.Text();
    if n.fraction == [] {
      assert t == n.Sign() + n.whole;
    } else {
      assert t == (n.Sign() + n.whole + ".") + n.fraction;
    }
  }

  lemma DigitAfter(a: string, b: string)
    requires EndsInDigit(b)
    ensures EndsInDigit(a + b)
  {
    assert (a + b)[|a + b| - 1] == b[|b| - 1];
  }

  /** Text that starts with an `x` in either case and ends with a digit. */
  predicate XToDigit(t: string) {
    |t| >= 1 && AsciiLower(t[0]) == 'x' && IsDigit(t[|t| - 1])
  }

  lemma XBefore(tag: string, rest: string)
    requires Spells(tag, "x") && EndsInDigit(rest)
    ensures XToDigit(tag + rest)
  {
    DigitAfter(tag, rest);
    assert (tag + rest)[0] == tag[0];
  }

  /** A sentence of the grammar starts with an `x` in either case and ends with a digit. */
  lemma RenderShape(d: Descriptor)
    requires d.WellFormed()
    ensures XToDigit(d.Render())
  {
    var tail := d.roll.Text() + d.ZoomText();
    NumeralEndsInDigit(d.roll);
    if d.zoom.Some? {
      NumeralEndsInDigit(d.zoom.value.fov);
      DigitAfter(d.zoom.value.tag, d.zoom.value.fov.Text());
      DigitAfter(d.roll.Text(), d.ZoomText());
    } else {
      assert tail == d.roll.Text();
    }
    var t6 := d.defTag + tail;
    var t5 := d.z.Text() + t6;
    var t4 := d.zTag + t5;
    var t3 := d.y.Text() + t4;
    var t2 := d.yTag + t3;
    var t1 := d.x.Text() + t2;
    DigitAfter(d.defTag, tail);
    DigitAfter(d.z.Text(), t6);
    DigitAfter(d.zTag, t5);
    DigitAfter(d.y.Text(), t4);
    DigitAfter(d.yTag, t3);
    DigitAfter(d.x.Text(), t2);
    XBefore(d.xTag, t1);
  }

  /**
   * The parser accepts only text that, once its white space is removed,
   * starts with `x` or `X` and ends with a digit.
   */
  lemma AcceptedShape(s: string)
    requires ParseCameraDescriptor(s).Some?
    ensures XToDigit(StripWhitespace(s))
  {
    ParseAcceptsExactlyGrammar(s);
    GrammarShape(StripWhitespace(s));
  }

  lemma GrammarShape(t: string)
    requires MatchesGrammar(t)
    ensures XToDigit(t)
  {
    var d: Descriptor :| d.WellFormed() && d.Render() == t;
    RenderShape(d);
  }

  // ---------------------------------------------------------------------------
  // Concrete descriptors

  function Whole(digits: string): Numeral {
    Numeral(false, digits, "")
  }

  lemma WholeReal(digits: string, n: nat)
    requires AllDigits(digits) && |digits| >= 1 && Value(digits) == n
    ensures Whole(digits).WellFormed() && Whole(digits).ToReal() == n as real
  {
    assert digits + "" == digits;
  }

  lemma TwoDigits(a: char, b: char)
    requires IsDigit(a) && IsDigit(b)
    ensures AllDigits([a, b]) && Value([a, b]) == 10 * DigitValue(a) + DigitValue(b)
  {
    assert [a][..0] == [];
    assert Value([a]) == DigitValue(a);
    assert [a, b][..1] == [a];
    assert Value([a, b]) == Value([a]) * 10 + DigitValue(b);
  }

  lemma ThreeDigits(a: char, b: char, c: char)
    requires IsDigit(a) && IsDigit(b) && IsDigit(c)
    ensures AllDigits([a, b, c]) && Value([a, b, c]) == 100 * DigitValue(a) + 10 * DigitValue(b) + DigitValue(c)
  {
    assert [a, b, c][..2] == [a, b];
    TwoDigits(a, b);
  }

  /** The descriptor of the editor's placeholder, `x0y0z4def0-zoom45`. */
  lemma PlaceholderParses()
    ensures ParseCameraDescriptor("x0y0z4def0" + "-zoom45") == Some(CameraState(Vec3(0.0, 0.0, 4.0), 0.0, 45.0))
  {
    var d := Placeholder();
    PlaceholderText();
    PlaceholderCamera();
    ParseRendered(d);
  }

  function Placeholder(): Descriptor {
    Descriptor("x", Whole("0"), "y", Whole("0"), "z", Whole("4"), "def", Whole("0"),
               Some(ZoomSuffix("-zoom", Whole("45"))))
  }

  lemma PlaceholderText()
    ensures Placeholder().WellFormed() && Placeholder().Render() == "x0y0z4def0" + "-zoom45"
  {
    WholeText("0");
    WholeText("4");
    WholeText("45");
    assert Placeholder().Render() == "x" + ("0" + ("y" + ("0" + ("z" + ("4" + ("def" + ("0" + ("-zoom" + "45"))))))));
  }

  lemma WholeText(digits: string)
    requires AllDigits(digits) && |digits| >= 1
    ensures Whole(digits).WellFormed() && Whole(digits).Text() == digits
  {
    assert digits + "" == digits;
  }

  lemma PlaceholderCamera()
    ensures Placeholder().WellFormed() && Interpret(Placeholder()) == CameraState(Vec3(0.0, 0.0, 4.0), 0.0, 45.0)
  {
    WholeReal("0", 0);
    WholeReal("4", 4);
    TwoDigits('4', '5');
    WholeReal("45", 45);
  }

  /** Appending a `-zoom` group to a sentence without one writes the group after it. */
  lemma RenderWithZoom(d: Descriptor, zs: ZoomSuffix)
    requires d.zoom.None?
    ensures d.(zoom := Some(zs)).Render() == d.Render() + zs.tag + zs.fov.Text()
  {
    var t := zs.tag + zs.fov.Text();
    var l8 := d.roll.Text();
    assert d.roll.Text() + d.ZoomText() == l8;
    var l7 := d.defTag + l8;
    var l6 := d.z.Text() + l7;
    var l5 := d.zTag + l6;
    var l4 := d.y.Text() + l5;
    var l3 := d.yTag + l4;
    var l2 := d.x.Text() + l3;
    Assoc(d.defTag, l8, t);
    Assoc(d.z.Text(), l7, t);
    Assoc(d.zTag, l6, t);
    Assoc(d.y.Text(), l5, t);
    Assoc(d.yTag, l4, t);
    Assoc(d.x.Text(), l3, t);
    Assoc(d.xTag, l2, t);
    Assoc(d.Render(), zs.tag, zs.fov.Text());
  }

  /** A `-zoom` group appended to a sentence is read as the field of view of that sentence. */
  lemma ZoomGroupParses(d: Descriptor, zs: ZoomSuffix)
    requires d.WellFormed() && d.zoom.None? && Spells(zs.tag, "-zoom") && zs.fov.WellFormed()
    ensures var p := ParseCameraDescriptor(d.Render() + zs.tag + zs.fov.Text());
      p.Some? && p.value.fov == ClampFov(Finite(zs.fov.ToReal()))
  {
    RenderWithZoom(d, zs);
    ParseRendered(d.(zoom := Some(zs)));
  }

  lemma ZoomSpellings()
    ensures Spells("-zoom", "-zoom") && Spells("-ZOOM", "-zoom")
  {
    LowerSpells("-zoom");
    assert AsciiLower('Z') == 'z' && AsciiLower('O') == 'o' && AsciiLower('M') == 'm';
  }

  lemma ZoomNumbers()
    ensures AllDigits("120") && Value("120") == 120 && AllDigits("0") && Value("0") == 0
    ensures "-zoom" + "120" == "-zoom120" && "-zoom" + "0" == "-zoom0" && "-ZOOM" + "120" == "-ZOOM120"
    ensures ClampFov(Finite(120.0)) == MaxFov && ClampFov(Finite(0.0)) == MinFov
  {
    ThreeDigits('1', '2', '0');
  }

  /** The `-zoom` group spelled `tag` followed by the whole number `digits`, and what it appends to a sentence. */
  lemma ZoomLiteral(d: Descriptor, tag: string, digits: string, n: nat, text: string)
    requires Spells(tag, "-zoom") && AllDigits(digits) && |digits| >= 1 && Value(digits) == n
    requires tag + digits == text
    ensures var zs := ZoomSuffix(tag, Whole(digits));
      zs.fov.WellFormed() && zs.fov.ToReal() == n as real && d.Render() + zs.tag + zs.fov.Text() == d.Render() + text
  {
    WholeReal(digits, n);
    assert Whole(digits).Text() == digits;
    Assoc(d.Render(), tag, digits);
  }

  /** Behind any sentence without a `-zoom` group, `-zoom120` means a field of view of 90. */
  lemma WideZoomClamped(d: Descriptor)
    requires d.WellFormed() && d.zoom.None?
    ensures var p := ParseCameraDescriptor(d.Render() + "-zoom120"); p.Some? && p.value.fov == MaxFov
  {
    ZoomSpellings();
    ZoomNumbers();
    ZoomLiteral(d, "-zoom", "120", 120, "-zoom120");
    ZoomGroupParses(d, ZoomSuffix("-zoom", Whole("120")));
  }

  /** Behind any sentence without a `-zoom` group, `-zoom0` means a field of view of 15. */
  lemma ZeroZoomClamped(d: Descriptor)
    requires d.WellFormed() && d.zoom.None?
    ensures var p := ParseCameraDescriptor(d.Render() + "-zoom0"); p.Some? && p.value.fov == MinFov
  {
    ZoomSpellings();
    ZoomNumbers();
    ZoomLiteral(d, "-zoom", "0", 0, "-zoom0");
    ZoomGroupParses(d, ZoomSuffix("-zoom", Whole("0")));
  }

  /** The keyword's case does not matter: `-ZOOM120` reads like `-zoom120`. */
  lemma UpperCaseZoom(d: Descriptor)
    requires d.WellFormed() && d.zoom.None?
    ensures var p := ParseCameraDescriptor(d.Render() + "-ZOOM120"); p.Some? && p.value.fov == MaxFov
  {
    ZoomSpellings();
    ZoomNumbers();
    ZoomLiteral(d, "-ZOOM", "120", 120, "-ZOOM120");
    ZoomGroupParses(d, ZoomSuffix("-ZOOM", Whole("120")));
  }

  /** A descriptor cut short after a keyword is rejected. */
  lemma TruncatedRejected()
    ensures ParseCameraDescriptor("x1y2z") == None
    ensures ParseCameraDescriptor("") == None
  {
    RejectedNoDigitEnd("x1y2z");
  }

  /** A `-zoom` keyword without its number makes the whole descriptor invalid. */
  lemma ZoomWithoutNumberRejected(d: Descriptor)
    requires d.WellFormed() && d.zoom.None?
    ensures ParseCameraDescriptor(d.Render() + "-zoom") == None
  {
    RenderNoSpace(d);
    var s := d.Render() + "-zoom";
    assert s[|s| - 1] == 'm';
    RejectedNoDigitEnd(s);
  }

  lemma RejectedNoDigitEnd(s: string)
    requires NoSpace(s) && s != [] && !IsDigit(s[|s| - 1])
    ensures ParseCameraDescriptor(s) == None
  {
    StripNoSpace(s);
    if ParseCameraDescriptor(s).Some? {
      AcceptedShape(s);
    }
  }
}
