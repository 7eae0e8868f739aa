/**
 * The camera descriptor codec of the viewer: a descriptor such as
 * `x0y0z4def0-zoom45` names a camera position, a roll angle and a vertical
 * field of view. This module holds the descriptor grammar with its
 * recogniser, the parser, the serialiser with its number formatting and
 * field-of-view clamp, and the extraction of a descriptor from a URL path.
 */
module Camera {
  import opened Base
  import opened Decimal

  const DefaultFov: real := 45.0
  const MinFov: real := 15.0
  const MaxFov: real := 90.0

  /** The viewpoint a descriptor encodes. */
  datatype CameraState = CameraState(position: Vec3, rollDeg: real, fov: real)

  function Min(a: real, b: real): real { if a <= b then a else b }
  function Max(a: real, b: real): real { if a >= b then a else b }

  /** `clampFov`: 45 for a non-finite value, otherwise the value clamped to [15, 90]. */
  function ClampFov(v: Num): (r: real)
    ensures MinFov <= r <= MaxFov
    ensures !v.IsFinite() ==> r == DefaultFov
    ensures v.IsFinite() && MinFov <= v.value <= MaxFov ==> r == v.value
    ensures v.IsFinite() && v.value <= MinFov ==> r == MinFov
    ensures v.IsFinite() && v.value >= MaxFov ==> r == MaxFov
  {
    if !v.IsFinite() then DefaultFov else Min(MaxFov, Max(MinFov, v.value))
  }

  /** Clamping to the field-of-view range never moves a value away from a point of that range. */
  lemma ClampFovNonExpansive(v: real, f: real)
    requires MinFov <= f <= MaxFov
    ensures -(if v >= f then v - f else f - v) <= ClampFov(Finite(v)) - f <= (if v >= f then v - f else f - v)
  {
  }

  // ---------------------------------------------------------------------------
  // White space

  predicate NoSpace(s: string) {
    forall i :: 0 <= i < |s| ==> !IsSpace(s[i])
  }

  /** `descriptor.replace(/\s+/g, '')`: every white-space character removed. */
  function StripWhitespace(s: string): (r: string)
    ensures NoSpace(r) && |r| <= |s|
  {
    if s == [] then []
    else (if IsSpace(s[0]) then [] else [s[0]]) + StripWhitespace(s[1..])
  }

  lemma {:induction false} StripConcat(a: string, b: string)
    ensures StripWhitespace(a + b) == StripWhitespace(a) + StripWhitespace(b)
  {
    if a != [] {
      assert (a + b)[1..] == a[1..] + b;
      StripConcat(a[1..], b);
    } else {
      assert a + b == b;
    }
  }

  lemma {:induction false} StripAllSpace(w: string)
    requires AllSpace(w)
    ensures StripWhitespace(w) == []
  {
    if w != [] {
      StripAllSpace(w[1..]);
    }
  }

  lemma {:induction false} StripNoSpace(s: string)
    requires NoSpace(s)
    ensures StripWhitespace(s) == s
  {
    if s != [] {
      StripNoSpace(s[1..]);
    }
  }

  // ---------------------------------------------------------------------------
  // The descriptor grammar
  //   x NUM y NUM z NUM def NUM ( -zoom NUM )?      NUM = -?\d+(\.\d+)?
  // matched case-insensitively against the whole (white-space free) string.

  /**
   * `t` spells `literal` under the regular expression's `i` flag. The literals
   * are lower-case ASCII letters and '-', and no character outside ASCII
   * folds onto an ASCII letter, so ASCII lower-casing decides the match.
   */
  predicate Spells(t: string, literal: string) {
    |t| == |literal| && forall i :: 0 <= i < |t| ==> AsciiLower(t[i]) == literal[i]
  }

  datatype ZoomSuffix = ZoomSuffix(tag: string, fov: Numeral)

  /** One parse of a descriptor: each keyword as spelled in the input, and each numeral. */
  datatype Descriptor = Descriptor(
    xTag: string, x: Numeral,
    yTag: string, y: Numeral,
    zTag: string, z: Numeral,
    defTag: string, roll: Numeral,
    zoom: Option<ZoomSuffix>)
  {
    predicate WellFormed() {
      && Spells(xTag, "x") && x.WellFormed()
      && Spells(yTag, "y") && y.WellFormed()
      && Spells(zTag, "z") && z.WellFormed()
      && Spells(defTag, "def") && roll.WellFormed()
      && (zoom.Some? ==> Spells(zoom.value.tag, "-zoom") && zoom.value.fov.WellFormed())
    }

    /** The descriptor as written. */
    function Render(): string {
      xTag + (x.Text() + (yTag + (y.Text() + (zTag + (z.Text() + (defTag + (roll.Text() + ZoomText())))))))
    }

    function ZoomText(): string {
      match zoom
      case None => ""
      case Some(zs) => zs.tag + zs.fov.Text()
    }
  }

  /** The language of the descriptor regular expression. */
  ghost predicate MatchesGrammar(s: string) {
    exists d: Descriptor :: d.WellFormed() && d.Render() == s
  }

  // ---------------------------------------------------------------------------
  // The recogniser

  /** Length of the run of digits `\d+` would consume at the start of `s`. */
  function ScanDigits(s: string): (n: nat)
    ensures n <= |s| && AllDigits(s[..n])
    ensures n < |s| ==> !IsDigit(s[n])
  {
    if s != [] && IsDigit(s[0]) then
      var n := 1 + ScanDigits(s[1..]);
      assert s[..n] == [s[0]] + s[1..][..n - 1];
      n
    else 0
  }

  /** Characters that may follow a numeral without extending it. */
  predicate EndsNumeral(rest: string) {
    rest == [] || (!IsDigit(rest[0]) && rest[0] != '.')
  }

  /**
   * Matches `-?\d+(?:\.\d+)?` at the start of `s` and returns the numeral and
   * what follows it. The match is the longest one; since in the grammar a
   * numeral is always followed by a letter, '-' or the end, no shorter match
   * could lead to an accepted descriptor.
   */
  function ScanNumeral(s: string): (r: Option<(Numeral, string)>)
    ensures r.Some? ==> r.value.0.WellFormed() && r.value.0.Text() + r.value.1 == s
  {
    var negative := s != [] && s[0] == '-';
    var t := if negative then s[1..] else s;
    var w := ScanDigits(t);
    if w == 0 then None
    else
      var fr := ScanFraction(t[w..]);
      var n := Numeral(negative, t[..w], fr.0);
      NumeralTextSplit(n, fr.1, s, t, w);
      Some((n, fr.1))
  }

  lemma NumeralTextSplit(n: Numeral, rest: string, s: string, t: string, w: nat)
    requires w <= |t| && n.whole == t[..w] && PointFraction(n.fraction) + rest == t[w..]
    requires s == n.Sign() + t
    ensures n.Text() + rest == s
  {
    calc {
      n.Text() + rest;
      n.Sign() + (n.whole + PointFraction(n.fraction)) + rest;
      n.Sign() + (t[..w] + (PointFraction(n.fraction) + rest));
      n.Sign() + (t[..w] + t[w..]);
      { assert t[..w] + t[w..] == t; }
      s;
    }
  }

  /** The optional `(?:\.\d+)` after the whole digits: the fraction digits (none if absent) and what follows. */
  function ScanFraction(s: string): (r: (string, string))
    ensures AllDigits(r.0)
    ensures PointFraction(r.0) + r.1 == s
  {
    if |s| >= 2 && s[0] == '.' && IsDigit(s[1]) then
      var u := s[1..];
      var f := ScanDigits(u);
      assert u[0] == s[1];
      PointSplit(s, f);
      (u[..f], u[f..])
    else
      assert "" + s == s;
      ([], s)
  }

  /** A point and `f` characters, then the rest: the pieces ScanFraction returns put back together. */
  lemma PointSplit(s: string, f: nat)
    requires |s| >= 2 && s[0] == '.' && 1 <= f <= |s| - 1
    ensures PointFraction(s[1..][..f]) + s[1..][f..] == s
  {
    var u := s[1..];
    assert u[..f] + u[f..] == u;
    assert s == [s[0]] + u;
  }

  /** Matches a literal, case-insensitively, at the start of `s`. */
  function ScanLiteral(s: string, literal: string): (r: Option<(string, string)>)
    ensures r.Some? ==> Spells(r.value.0, literal) && r.value.0 + r.value.1 == s
  {
    if |s| >= |literal| && Spells(s[..|literal|], literal) then
      assert s == s[..|literal|] + s[|literal|..];
      Some((s[..|literal|], s[|literal|..]))
    else None
  }

  /** A keyword followed by a numeral: one `x NUM`, `y NUM`, `z NUM`, `def NUM` or `-zoom NUM` group. */
  function ScanField(s: string, literal: string): (r: Option<(string, Numeral, string)>)
    ensures r.Some? ==>
      (Spells(r.value.0, literal) && r.value.1.WellFormed() && r.value.0 + (r.value.1.Text() + r.value.2) == s)
  {
    var tag :- ScanLiteral(s, literal);
    var num :- ScanNumeral(tag.1);
    Some((tag.0, num.0, num.1))
  }

  /** The optional `-zoom NUM` group followed by the end of the input. */
  function ScanZoom(s: string): (r: Option<Option<ZoomSuffix>>)
    ensures r.Some? && r.value.None? ==> s == []
    ensures r.Some? && r.value.Some? ==>
      (Spells(r.value.value.tag, "-zoom") && r.value.value.fov.WellFormed()
       && r.value.value.tag + r.value.value.fov.Text() == s)
  {
    if s == [] then Some(None)
    else
      var zoom :- ScanField(s, "-zoom");
      if zoom.2 == [] then
        assert zoom.1.Text() + zoom.2 == zoom.1.Text();
        Some(Some(ZoomSuffix(zoom.0, zoom.1)))
      else None
  }

  /** The recogniser for the whole descriptor regular expression (anchored at both ends). */
  function ParseSyntax(s: string): (r: Option<Descriptor>)
    ensures r.Some? ==> r.value.WellFormed() && r.value.Render() == s
  {
    var x :- ScanField(s, "x");
    var y :- ScanField(x.2, "y");
    var z :- ScanField(y.2, "z");
    var roll :- ScanField(z.2, "def");
    var zoom :- ScanZoom(roll.2);
    var d := Descriptor(x.0, x.1, y.0, y.1, z.0, z.1, roll.0, roll.1, zoom);
    assert d.ZoomText() == roll.2;
    Some(d)
  }

  lemma {:induction false} ScanDigitsRun(ds: string, rest: string)
    requires AllDigits(ds) && (rest == [] || !IsDigit(rest[0]))
    ensures ScanDigits(ds + rest) == |ds|
  {
    if ds == [] {
      assert ds + rest == rest;
    } else {
      assert (ds + rest)[1..] == ds[1..] + rest;
      ScanDigitsRun(ds[1..], rest);
    }
  }

  lemma ScanLiteralSpelled(t: string, rest: string, literal: string)
    requires Spells(t, literal)
    ensures ScanLiteral(t + rest, literal) == Some((t, rest))
  {
    assert (t + rest)[..|literal|] == t;
    assert (t + rest)[|literal|..] == rest;
  }

  /** A spelled keyword that starts with neither a digit nor '.' ends the numeral before it. */
  lemma SpelledEndsNumeral(t: string, literal: string, rest: string)
    requires Spells(t, literal) && |literal| > 0 && !IsDigit(literal[0]) && literal[0] != '.'
    ensures EndsNumeral(t + rest)
  {
    assert (t + rest)[0] == t[0];
    assert AsciiLower(t[0]) == literal[0];
  }

  /** The numeral scanner reads back every well-formed numeral exactly. */
  lemma ScanFractionText(fraction: string, rest: string)
    requires AllDigits(fraction) && EndsNumeral(rest)
    ensures ScanFraction(PointFraction(fraction) + rest) == (fraction, rest)
  {
    if fraction != [] {
      var u := fraction + rest;
      assert ("." + fraction + rest)[1..] == u;
      ScanDigitsRun(fraction, rest);
      assert u[..|fraction|] == fraction && u[|fraction|..] == rest;
    } else {
      assert "" + rest == rest;
    }
  }

  lemma ScanNumeralText(n: Numeral, rest: string)
    requires n.WellFormed() && EndsNumeral(rest)
    ensures ScanNumeral(n.Text() + rest) == Some((n, rest))
  {
    var s := n.Text() + rest;
    var tail := PointFraction(n.fraction) + rest;
    NumeralLayout(n, rest);
    var t := if n.negative then s[1..] else s;
    assert t == n.whole + tail;
    ScanDigitsRun(n.whole, tail);
    assert t[..|n.whole|] == n.whole && t[|n.whole|..] == tail;
    ScanFractionText(n.fraction, rest);
  }

  /** A written numeral starts with '-' exactly when it is negative; after the sign come the whole digits. */
  lemma NumeralLayout(n: Numeral, rest: string)
    requires n.WellFormed()
    ensures var s := n.Text() + rest;
      s != [] && (s[0] == '-' <==> n.negative)
      && (if n.negative then s[1..] else s) == n.whole + (PointFraction(n.fraction) + rest)
  {
    var s := n.Text() + rest;
    var tail := PointFraction(n.fraction) + rest;
    assert s == n.Sign() + (n.whole + tail);
    if n.negative {
      assert s[0] == '-' && s[1..] == n.whole + tail;
    } else {
      assert s == n.whole + tail && s[0] == n.whole[0];
    }
  }

  lemma ScanFieldText(tag: string, n: Numeral, rest: string, literal: string)
    requires Spells(tag, literal) && n.WellFormed() && EndsNumeral(rest)
    ensures ScanField(tag + (n.Text() + rest), literal) == Some((tag, n, rest))
  {
    ScanLiteralSpelled(tag, n.Text() + rest, literal);
    ScanNumeralText(n, rest);
  }

  /** Completeness of the recogniser: every sentence of the grammar is read back as itself. */
  lemma ParseSyntaxRender(d: Descriptor)
    requires d.WellFormed()
    ensures ParseSyntax(d.Render()) == Some(d)
  {
    var zoomText := d.ZoomText();
    var afterZ := d.defTag + (d.roll.Text() + zoomText);
    var afterY := d.zTag + (d.z.Text() + afterZ);
    var afterX := d.yTag + (d.y.Text() + afterY);
    SpelledEndsNumeral(d.yTag, "y", d.y.Text() + afterY);
    ScanFieldText(d.xTag, d.x, afterX, "x");
    SpelledEndsNumeral(d.zTag, "z", d.z.Text() + afterZ);
    ScanFieldText(d.yTag, d.y, afterY, "y");
    SpelledEndsNumeral(d.defTag, "def", d.roll.Text() + zoomText);
    ScanFieldText(d.zTag, d.z, afterZ, "z");
    match d.zoom
    case None =>
      ScanFieldText(d.defTag, d.roll, [], "def");
      assert d.roll.Text() + [] == d.roll.Text();
    case Some(zs) =>
      SpelledEndsNumeral(zs.tag, "-zoom", zs.fov.Text());
      ScanFieldText(d.defTag, d.roll, zoomText, "def");
      ScanFieldText(zs.tag, zs.fov, [], "-zoom");
      assert zs.fov.Text() + [] == zs.fov.Text();
  }

  /** The recogniser accepts exactly the language of the descriptor regular expression. */
  lemma ParseSyntaxExact(s: string)
    ensures ParseSyntax(s).Some? <==> MatchesGrammar(s)
  {
    if MatchesGrammar(s) {
      var d: Descriptor :| d.WellFormed() && d.Render() == s;
      ParseSyntaxRender(d);
    }
  }

  // ---------------------------------------------------------------------------
  // The parser

  /** The camera state read from the groups of a match. */
  function Interpret(d: Descriptor): (c: CameraState)
    requires d.WellFormed()
    ensures c.position == Vec3(d.x.ToReal(), d.y.ToReal(), d.z.ToReal())
    ensures c.rollDeg == d.roll.ToReal()
    ensures d.zoom.None? ==> c.fov == DefaultFov
    ensures d.zoom.Some? ==> c.fov == ClampFov(Finite(d.zoom.value.fov.ToReal()))
    ensures MinFov <= c.fov <= MaxFov
  {
    CameraState(
      Vec3(d.x.ToReal(), d.y.ToReal(), d.z.ToReal()),
      // parseFloat(group 4) || 0: a numeral never reads as NaN, and 0 || 0 is 0
      Or(Finite(d.roll.ToReal()), Finite(0.0)).value,
      match d.zoom
      case None => DefaultFov
      case Some(zs) => ClampFov(Finite(zs.fov.ToReal())))
  }

  /**
   * `parseCameraDescriptor`: None for the empty string; otherwise the
   * white-space free text is matched against the grammar, and None is the
   * answer when it does not match.
   */
  function ParseCameraDescriptor(descriptor: string): (r: Option<CameraState>)
    ensures descriptor == "" ==> r.None?
    ensures r.Some? ==> MinFov <= r.value.fov <= MaxFov
  {
    if descriptor == "" then None
    else
      match ParseSyntax(StripWhitespace(descriptor))
      case None => None
      case Some(d) => Some(Interpret(d))
  }

  /** The empty-string guard agrees with the grammar: the parse depends on the non-space characters only. */
  lemma ParseSeesOnlyNonSpace(s1: string, s2: string)
    requires StripWhitespace(s1) == StripWhitespace(s2)
    ensures ParseCameraDescriptor(s1) == ParseCameraDescriptor(s2)
  {
    assert ParseSyntax("").None? by {
      assert ScanLiteral("", "x").None?;
    }
  }

  /** Inserting white space anywhere in a descriptor does not change what it parses to. */
  lemma ParseIgnoresWhitespace(a: string, w: string, b: string)
    requires AllSpace(w)
    ensures ParseCameraDescriptor(a + w + b) == ParseCameraDescriptor(a + b)
  {
    StripConcat(a + w, b);
    StripConcat(a, w);
    StripConcat(a, b);
    StripAllSpace(w);
    assert StripWhitespace(a) + [] == StripWhitespace(a);
    ParseSeesOnlyNonSpace(a + w + b, a + b);
  }

  /** A descriptor is accepted exactly when its white-space free text is in the grammar. */
  lemma ParseAcceptsExactlyGrammar(s: string)
    ensures ParseCameraDescriptor(s).Some? <==> MatchesGrammar(StripWhitespace(s))
  {
    ParseSyntaxExact(StripWhitespace(s));
    if s == "" {
      ParseSyntaxExact("");
      assert ScanLiteral("", "x").None?;
    }
  }

  lemma {:induction false} NumeralNoSpace(n: Numeral)
    requires n.WellFormed()
    ensures NoSpace(n.Text())
  {
  }

  lemma SpelledNoSpace(t: string, literal: string)
    requires Spells(t, literal) && forall i :: 0 <= i < |literal| ==> !IsSpace(literal[i])
    ensures NoSpace(t)
  {
    forall i | 0 <= i < |t| ensures !IsSpace(t[i]) {
      assert AsciiLower(t[i]) == literal[i];
    }
  }

  lemma RenderNoSpace(d: Descriptor)
    requires d.WellFormed()
    ensures NoSpace(d.Render())
  {
    SpelledNoSpace(d.xTag, "x");
    SpelledNoSpace(d.yTag, "y");
    SpelledNoSpace(d.zTag, "z");
    SpelledNoSpace(d.defTag, "def");
    NumeralNoSpace(d.x);
    NumeralNoSpace(d.y);
    NumeralNoSpace(d.z);
    NumeralNoSpace(d.roll);
    if d.zoom.Some? {
      SpelledNoSpace(d.zoom.value.tag, "-zoom");
      NumeralNoSpace(d.zoom.value.fov);
    }
  }

  /** Every sentence of the grammar parses, to the values its numerals denote. */
  lemma ParseRendered(d: Descriptor)
    requires d.WellFormed()
    ensures ParseCameraDescriptor(d.Render()) == Some(Interpret(d))
  {
    RenderNoSpace(d);
    StripNoSpace(d.Render());
    ParseSyntaxRender(d);
  }

  // ---------------------------------------------------------------------------
  // Number formatting

  function Abs(v: real): (a: real)
    ensures a >= 0.0 && (a == v || a == -v)
  {
    if v < 0.0 then -v else v
  }

  /** The integer nearest to `x`, the larger one on a tie (the rounding rule of toFixed). */
  function RoundHalfUp(x: real): (n: nat)
    requires x >= 0.0
    ensures n as real - 0.5 <= x < n as real + 0.5
  {
    (x + 0.5).Floor
  }

  /** |v| * 10^digits rounded to an integer: the `n` of toFixed. */
  function Scaled(v: real, digits: nat): nat {
    RoundHalfUp(Abs(v) * (Pow10(digits) as real))
  }

  /**
   * The digits toFixed lays out: those of `n`, padded with leading zeros to
   * digits + 1 characters; a longer text has no leading zero.
   */
  function FixedDigits(n: nat, digits: nat): (m: string)
    ensures |m| >= digits + 1 && AllDigits(m)
    ensures Value(m) == n
    ensures |m| == if |Digits(n)| > digits then |Digits(n)| else digits + 1
    ensures |m| > digits + 1 ==> m[0] != '0'
  {
    var ds := Digits(n);
    if |ds| > digits then ds
    else
      LeadingZeros(digits + 1 - |ds|, ds);
      Zeros(digits + 1 - |ds|) + ds
  }

  /**
   * `Number.prototype.toFixed(digits)`: a '-' for a negative value, then the
   * rounded magnitude with exactly `digits` digits after the point.
   */
  function ToFixed(v: real, digits: nat): (r: string)
    ensures |r| > digits && (r[0] == '-' <==> v < 0.0)
    ensures digits > 0 ==> |r| > digits + 1 && r[|r| - digits - 1] == '.' && AllDigits(r[|r| - digits..])
    ensures digits == 0 ==> AllDigits(if v < 0.0 then r[1..] else r)
  {
    var m := FixedDigits(Scaled(v, digits), digits);
    FixedTextShape(v < 0.0, m, digits);
    FixedText(v < 0.0, Scaled(v, digits), digits)
  }

  /** The layout of toFixed for any digit text `m` of at least digits + 1 characters. */
  lemma FixedTextShape(negative: bool, m: string, digits: nat)
    requires |m| >= digits + 1 && AllDigits(m)
    ensures var sign := if negative then "-" else "";
      var r := if digits == 0 then sign + m else sign + m[..|m| - digits] + "." + m[|m| - digits..];
      && |r| > digits && (r[0] == '-' <==> negative)
      && (digits > 0 ==> |r| > digits + 1 && r[|r| - digits - 1] == '.' && AllDigits(r[|r| - digits..]))
      && (digits == 0 ==> AllDigits(if negative then r[1..] else r))
  {
    var sign := if negative then "-" else "";
    assert IsDigit(m[0]);
    if digits > 0 {
      var r := sign + m[..|m| - digits] + "." + m[|m| - digits..];
      assert r[|r| - digits..] == m[|m| - digits..];
    }
  }

  /** The text toFixed lays out for the rounded magnitude `n` and the sign. */
  function FixedText(negative: bool, n: nat, digits: nat): string {
    var sign := if negative then "-" else "";
    var m := FixedDigits(n, digits);
    if digits == 0 then sign + m
    else sign + m[..|m| - digits] + "." + m[|m| - digits..]
  }

  /** Number of '0' characters at the end of `s`. */
  function TrailingZeroCount(s: string): (k: nat)
    ensures k <= |s|
    ensures forall i :: |s| - k <= i < |s| ==> s[i] == '0'
    ensures k < |s| ==> s[|s| - k - 1] != '0'
  {
    if s != [] && s[|s| - 1] == '0' then 1 + TrailingZeroCount(s[..|s| - 1]) else 0
  }

  /** The three properties of TrailingZeroCount pin the count down. */
  lemma {:induction false} TrailingZeroCountUnique(s: string, k: nat)
    requires k <= |s|
    requires forall i :: |s| - k <= i < |s| ==> s[i] == '0'
    requires k < |s| ==> s[|s| - k - 1] != '0'
    ensures TrailingZeroCount(s) == k
  {
    if k > 0 {
      var s' := s[..|s| - 1];
      assert forall i :: |s'| - (k - 1) <= i < |s'| ==> s'[i] == s[i];
      TrailingZeroCountUnique(s', k - 1);
    }
  }

  /** A suffix the pattern `\.?0+$` matches. */
  ghost predicate ZeroTail(t: string) {
    || (|t| >= 1 && forall i :: 0 <= i < |t| ==> t[i] == '0')
    || (|t| >= 2 && t[0] == '.' && forall i :: 1 <= i < |t| ==> t[i] == '0')
  }

  /** `s.replace(/\.?0+$/, '')`: a suffix the pattern matches is removed; nothing when none does. */
  function StripZeroTail(s: string): (r: string)
    ensures |r| <= |s| && r == s[..|r|]
  {
    var k := TrailingZeroCount(s);
    var p := |s| - k;
    if k == 0 then s
    else if p > 0 && s[p - 1] == '.' then s[..p - 1]
    else s[..p]
  }

  /**
   * The suffix removed is the one the regular expression finds: the leftmost
   * suffix the pattern matches, so no longer suffix matches.
   */
  lemma StripZeroTailLeftmost(s: string)
    ensures var r := StripZeroTail(s);
      && (|r| < |s| ==> ZeroTail(s[|r|..]))
      && (forall q :: 0 <= q < |r| ==> !ZeroTail(s[q..]))
  {
    var k := TrailingZeroCount(s);
    var p := |s| - k;
    if k == 0 {
      if s != [] {
        NoZeroTailBefore(s, |s|, |s| - 1);
      }
    } else if p > 0 && s[p - 1] == '.' {
      var t := s[p - 1..];
      forall i | 1 <= i < |t|
        ensures t[i] == '0'
      {
        assert t[i] == s[p - 1 + i];
      }
      NoZeroTailBefore(s, p - 1, p - 1);
    } else {
      var t := s[p..];
      forall i | 0 <= i < |t|
        ensures t[i] == '0'
      {
        assert t[i] == s[p + i];
      }
      if p > 0 {
        NoZeroTailBefore(s, p, p - 1);
      }
    }
  }

  /**
   * No suffix starting before `n` matches `\.?0+$` when a character at or
   * after `n - 1`, at `c`, is not '0' and, if it is a point, is either the last
   * character or preceded by the suffix's first one.
   */
  lemma NoZeroTailBefore(s: string, n: nat, c: nat)
    requires n <= c + 1 && c < |s| && s[c] != '0'
    requires s[c] == '.' ==> n <= c || c == |s| - 1
    ensures forall q :: 0 <= q < n ==> !ZeroTail(s[q..])
  {
    forall q | 0 <= q < n
      ensures !ZeroTail(s[q..])
    {
      assert s[q..][c - q] == s[c];
    }
  }

  /** Appending `k` zeros adds `k` trailing zeros. */
  lemma {:induction false} TrailingZeroCountZeros(a: string, k: nat)
    ensures TrailingZeroCount(a + Zeros(k)) == TrailingZeroCount(a) + k
  {
    if k == 0 {
      assert a + Zeros(0) == a;
    } else {
      var s := a + Zeros(k);
      assert s[|s| - 1] == '0';
      assert s[..|s| - 1] == a + Zeros(k - 1);
      TrailingZeroCountZeros(a, k - 1);
    }
  }

  /** `sanitizeNumber(value, decimals)`: "0" for a non-finite value, otherwise toFixed without trailing zeros. */
  function SanitizeNumber(value: Num, decimals: nat): (r: string)
    ensures !value.IsFinite() ==> r == "0"
    ensures value.IsFinite() ==> |r| <= |ToFixed(value.value, decimals)| && r == ToFixed(value.value, decimals)[..|r|]
  {
    if !value.IsFinite() then "0" else StripZeroTail(ToFixed(value.value, decimals))
  }

  /**
   * The numeral sanitizeNumber writes when toFixed laid out the digits `m`
   * with `decimals` of them after the point: the digits split at the point,
   * the fraction without its trailing zeros.
   */
  function PointNumeral(negative: bool, m: string, decimals: nat): (r: Numeral)
    requires AllDigits(m) && |m| >= decimals + 1
    ensures r.WellFormed()
  {
    var fraction := m[|m| - decimals..];
    Numeral(negative, m[..|m| - decimals], fraction[..|fraction| - TrailingZeroCount(fraction)])
  }

  /** The numeral SanitizeNumber writes for a finite value. */
  function FormattedNumeral(v: real, decimals: nat): (r: Numeral)
    ensures r.WellFormed()
  {
    PointNumeral(v < 0.0, FixedDigits(Scaled(v, decimals), decimals), decimals)
  }

  /**
   * What `\.?0+$` removes after a point followed by digits: the zeros ending
   * the fraction, and the point as well when nothing else is left of it.
   */
  lemma StripZeroTailOfFraction(head: string, fraction: string)
    requires AllDigits(fraction) && |fraction| >= 1
    ensures var kept := fraction[..|fraction| - TrailingZeroCount(fraction)];
      StripZeroTail(head + "." + fraction) == head + PointFraction(kept)
  {
    var k := TrailingZeroCount(fraction);
    var kept := fraction[..|fraction| - k];
    SplitTrailingZeros(fraction);
    var a := head + ("." + kept);
    Regroup(head, ".", kept, Zeros(k));
    if kept == [] {
      assert a == head + ".";
      StripZeroTailAfter(a, k);
      assert a[..|a| - 1] == head;
    } else {
      assert a[|a| - 1] == kept[|kept| - 1] == fraction[|fraction| - k - 1];
      assert IsDigit(a[|a| - 1]);
      StripZeroTailAfter(a, k);
    }
  }

  lemma Regroup(a: string, b: string, c: string, d: string)
    ensures a + b + (c + d) == a + (b + c) + d
  {
  }

  /** A string is its part before the trailing zeros followed by those zeros. */
  lemma SplitTrailingZeros(s: string)
    ensures s == s[..|s| - TrailingZeroCount(s)] + Zeros(TrailingZeroCount(s))
  {
    ZerosTail(s, TrailingZeroCount(s));
  }

  /** A string whose last `k` characters are '0' is its other characters followed by `k` zeros. */
  lemma ZerosTail(s: string, k: nat)
    requires k <= |s| && forall i :: |s| - k <= i < |s| ==> s[i] == '0'
    ensures s == s[..|s| - k] + Zeros(k)
  {
    var joined := s[..|s| - k] + Zeros(k);
    forall i | 0 <= i < |s|
      ensures joined[i] == s[i]
    {
      if i >= |s| - k {
        assert joined[i] == Zeros(k)[i - (|s| - k)];
      }
    }
  }

  /** What `\.?0+$` removes from `a` followed by `k` zeros, when `a` does not end in '0'. */
  lemma StripZeroTailAfter(a: string, k: nat)
    requires a != [] && a[|a| - 1] != '0'
    ensures StripZeroTail(a + Zeros(k)) == if k > 0 && a[|a| - 1] == '.' then a[..|a| - 1] else a
  {
    TrailingZeroCountZeros(a, k);
    var s := a + Zeros(k);
    assert s[..|a|] == a;
    assert k == 0 ==> s == a;
    assert s[|a| - 1] == a[|a| - 1];
  }

  /** With at least one decimal, SanitizeNumber writes the numeral FormattedNumeral describes. */
  lemma SanitizeText(v: real, decimals: nat)
    requires decimals >= 1
    ensures SanitizeNumber(Finite(v), decimals) == FormattedNumeral(v, decimals).Text()
  {
    var m := FixedDigits(Scaled(v, decimals), decimals);
    var sign := if v < 0.0 then "-" else "";
    assert SanitizeNumber(Finite(v), decimals) == StripZeroTail(ToFixed(v, decimals));
    assert ToFixed(v, decimals) == FixedText(v < 0.0, Scaled(v, decimals), decimals);
    assert FixedText(v < 0.0, Scaled(v, decimals), decimals) == sign + m[..|m| - decimals] + "." + m[|m| - decimals..];
    StripFixedText(v < 0.0, m, decimals);
    assert FormattedNumeral(v, decimals) == PointNumeral(v < 0.0, m, decimals);
  }

  /** The sanitising step on a toFixed layout `sign digits . digits`, for any digit string. */
  lemma StripFixedText(negative: bool, m: string, decimals: nat)
    requires AllDigits(m) && |m| >= decimals + 1 && decimals >= 1
    ensures StripZeroTail((if negative then "-" else "") + m[..|m| - decimals] + "." + m[|m| - decimals..])
         == PointNumeral(negative, m, decimals).Text()
  {
    var sign := if negative then "-" else "";
    var whole, fraction := m[..|m| - decimals], m[|m| - decimals..];
    StripZeroTailOfFraction(sign + whole, fraction);
    var r := PointNumeral(negative, m, decimals);
    assert r.Sign() == sign && r.whole == whole;
    Assoc(sign, whole, PointFraction(r.fraction));
  }

  lemma Assoc(a: string, b: string, c: string)
    ensures a + b + c == a + (b + c)
  {
  }

  /** The written numeral keeps at most `decimals` fractional digits and never ends in a fractional zero. */
  lemma PointNumeralShape(negative: bool, m: string, decimals: nat)
    requires AllDigits(m) && |m| >= decimals + 1
    ensures var r := PointNumeral(negative, m, decimals);
      |r.fraction| <= decimals && (r.fraction != [] ==> r.fraction[|r.fraction| - 1] != '0')
  {
  }

  lemma Cancel(a: nat, p: nat, q: nat)
    requires p >= 1 && q >= 1
    ensures (a * q) as real / (p * q) as real == a as real / p as real
  {
    var A, P, Q := a as real, p as real, q as real;
    assert (a * q) as real == A * Q && (p * q) as real == P * Q;
    assert (A * Q) / (P * Q) == A / P;
  }

  /** Trailing zeros after the point do not change a numeral's value. */
  lemma DropTrailingZeros(ds: string, k: nat, e: nat)
    requires AllDigits(ds)
    ensures AllDigits(ds + Zeros(k))
    ensures ScaleDown(Value(ds + Zeros(k)), e + k) == ScaleDown(Value(ds), e)
  {
    TrailingZerosScale(ds, k);
    Pow10Add(e, k);
    Cancel(Value(ds), Pow10(e), Pow10(k));
    ScaleDownDivides(Value(ds + Zeros(k)), e + k);
    ScaleDownDivides(Value(ds), e);
  }

  /** The written numeral is worth the digits over 10^decimals: dropping the trailing zeros loses nothing. */
  lemma PointNumeralValue(negative: bool, m: string, decimals: nat)
    requires AllDigits(m) && |m| >= decimals + 1
    ensures var magnitude := ScaleDown(Value(m), decimals);
      PointNumeral(negative, m, decimals).ToReal() == if negative then -magnitude else magnitude
  {
    var r := PointNumeral(negative, m, decimals);
    PointNumeralDigits(negative, m, decimals);
    SameValue(r.whole + r.fraction, decimals - |r.fraction|, |r.fraction|, m, decimals);
  }

  /** Digits followed by zeros, with as many more places, are worth the same. */
  lemma SameValue(ds: string, k: nat, e: nat, m: string, decimals: nat)
    requires AllDigits(ds) && m == ds + Zeros(k) && decimals == e + k
    ensures ScaleDown(Value(ds), e) == ScaleDown(Value(m), decimals)
  {
    DropTrailingZeros(ds, k, e);
  }

  /** The digits toFixed laid out are the written numeral's digits followed by the dropped zeros. */
  lemma PointNumeralDigits(negative: bool, m: string, decimals: nat)
    requires AllDigits(m) && |m| >= decimals + 1
    ensures var r := PointNumeral(negative, m, decimals);
      |r.fraction| <= decimals && m == (r.whole + r.fraction) + Zeros(decimals - |r.fraction|)
  {
    var whole, fraction := m[..|m| - decimals], m[|m| - decimals..];
    var t := TrailingZeroCount(fraction);
    var kept := fraction[..|fraction| - t];
    assert PointNumeral(negative, m, decimals) == Numeral(negative, whole, kept);
    assert m == whole + fraction;
    SplitTrailingZeros(fraction);
    assert fraction == kept + Zeros(t);
    Rejoin(m, whole, fraction, kept, Zeros(t));
  }

  lemma Rejoin(m: string, whole: string, fraction: string, kept: string, zeros: string)
    requires m == whole + fraction && fraction == kept + zeros
    ensures m == (whole + kept) + zeros
  {
  }

  /** The value of the written numeral is the rounded magnitude over 10^decimals, with the sign of the input. */
  lemma FormattedNumeralValue(v: real, decimals: nat)
    ensures var magnitude := ScaleDown(Scaled(v, decimals), decimals);
      FormattedNumeral(v, decimals).ToReal() == if v < 0.0 then -magnitude else magnitude
  {
    PointNumeralValue(v < 0.0, FixedDigits(Scaled(v, decimals), decimals), decimals);
  }

  /** Rounding to `decimals` places moves a value by at most half a unit of the last place. */
  lemma FormattedNumeralError(v: real, decimals: nat)
    ensures var e := FormattedNumeral(v, decimals).ToReal() - v;
      -ScaleDown(1, decimals) / 2.0 <= e <= ScaleDown(1, decimals) / 2.0
  {
    FormattedNumeralValue(v, decimals);
    ScaledError(v, decimals);
  }

  /** The rounded magnitude, scaled back, is within half a unit of the last place of |v|. */
  lemma ScaledError(v: real, decimals: nat)
    ensures var e := ScaleDown(Scaled(v, decimals), decimals) - Abs(v);
      -ScaleDown(1, decimals) / 2.0 <= e <= ScaleDown(1, decimals) / 2.0
  {
    var P := Pow10(decimals) as real;
    var a := Abs(v);
    var n := Scaled(v, decimals) as real;
    assert n - 0.5 <= a * P < n + 0.5;
    RoundingError(n, a, P);
    ScaleDownDivides(Scaled(v, decimals), decimals);
    ScaleDownDivides(1, decimals);
  }

  lemma RoundingError(n: real, a: real, P: real)
    requires P >= 1.0 && n - 0.5 <= a * P < n + 0.5
    ensures -(1.0 / P) / 2.0 <= n / P - a <= (1.0 / P) / 2.0
  {
    assert n / P - a == (n - a * P) / P;
  }

  /**
   * sanitizeNumber's output, with at least one decimal, is never empty, never
   * ends in '.', and never in a '0' after the point.
   */
  lemma SanitizeNumberShape(value: Num, decimals: nat)
    requires decimals >= 1
    ensures var r := SanitizeNumber(value, decimals);
      r != [] && r[|r| - 1] != '.' && ('.' in r ==> r[|r| - 1] != '0')
  {
    if value.IsFinite() {
      var r := SanitizeNumber(value, decimals);
      SanitizeText(value.value, decimals);
      FormattedNumeralShape(value.value, decimals);
      assert r == FormattedNumeral(value.value, decimals).Text();
    }
  }

  lemma FormattedNumeralShape(v: real, decimals: nat)
    ensures var r := FormattedNumeral(v, decimals).Text();
      r != [] && r[|r| - 1] != '.' && ('.' in r ==> r[|r| - 1] != '0')
  {
    var m := FixedDigits(Scaled(v, decimals), decimals);
    PointNumeralShape(v < 0.0, m, decimals);
    NumeralTextShape(PointNumeral(v < 0.0, m, decimals));
  }

  /** A numeral whose fraction does not end in '0' neither ends in '.' nor in a fractional '0'. */
  lemma NumeralTextShape(n: Numeral)
    requires n.WellFormed() && (n.fraction != [] ==> n.fraction[|n.fraction| - 1] != '0')
    ensures var r := n.Text();
      r != [] && r[|r| - 1] != '.' && ('.' in r ==> r[|r| - 1] != '0')
  {
    var r := n.Text();
    if n.fraction == [] {
      assert r == n.Sign() + n.whole;
      assert r[|r| - 1] == n.whole[|n.whole| - 1];
      assert forall i :: 0 <= i < |r| ==> r[i] == '-' || IsDigit(r[i]);
    } else {
      assert r[|r| - 1] == n.fraction[|n.fraction| - 1];
    }
  }

  /** A missing or non-finite coordinate is written as 0. */
  function NumeralOf(value: Num, decimals: nat): (n: Numeral)
    requires decimals >= 1
    ensures n.WellFormed()
  {
    if value.IsFinite() then FormattedNumeral(value.value, decimals) else Numeral(false, "0", "")
  }

  // ---------------------------------------------------------------------------
  // The serialiser

  /** A camera position whose coordinates are JavaScript numbers. */
  datatype Position = Position(x: Num, y: Num, z: Num)

  /**
   * `buildCameraDescriptor`: a missing position is the origin, a non-finite
   * roll is 0, a missing field of view is 45 and the field of view is clamped;
   * positions keep 4 decimals, roll and field of view 2, and the `-zoom`
   * suffix is always written.
   */
  function BuildCameraDescriptor(position: Option<Position>, rollDeg: Num, fov: Option<Num>): (d: string)
    ensures d != [] && d[0] == 'x'
  {
    var pos := position.GetOr(Position(Finite(0.0), Finite(0.0), Finite(0.0)));
    var roll := if rollDeg.IsFinite() then rollDeg else Finite(0.0);
    var fieldOfView := ClampFov(fov.GetOr(Finite(DefaultFov)));
    DescriptorHead(SanitizeNumber(pos.x, 4), SanitizeNumber(pos.y, 4), SanitizeNumber(pos.z, 4),
                   SanitizeNumber(roll, 2), SanitizeNumber(Finite(fieldOfView), 2));
    "x" + SanitizeNumber(pos.x, 4) + "y" + SanitizeNumber(pos.y, 4) + "z" + SanitizeNumber(pos.z, 4)
    + "def" + SanitizeNumber(roll, 2) + "-zoom" + SanitizeNumber(Finite(fieldOfView), 2)
  }

  /** The descriptor layout starts with `x`, whatever its numbers. */
  lemma DescriptorHead(x: string, y: string, z: string, roll: string, fov: string)
    ensures var d := "x" + x + "y" + y + "z" + z + "def" + roll + "-zoom" + fov;
      d != [] && d[0] == 'x'
  {
  }

  // ---------------------------------------------------------------------------
  // Descriptor from a URL path

  /** `s.split('/')`: the pieces between slashes, empty ones included. */
  function SplitPath(s: string): (parts: seq<string>)
    ensures |parts| >= 1
    ensures forall i :: 0 <= i < |parts| ==> '/' !in parts[i]
  {
    if s == [] then [[]]
    else
      var rest := SplitPath(s[1..]);
      if s[0] == '/' then [[]] + rest
      else [[s[0]] + rest[0]] + rest[1..]
  }

  /** `.filter(Boolean)` on strings: the non-empty ones, in order. */
  function NonEmpty(parts: seq<string>): (r: seq<string>)
    ensures forall i :: 0 <= i < |r| ==> r[i] != [] && r[i] in parts
  {
    if parts == [] then []
    else if parts[0] == [] then NonEmpty(parts[1..])
    else [parts[0]] + NonEmpty(parts[1..])
  }

  /** `parts.join('')` */
  function Join(parts: seq<string>): string {
    if parts == [] then [] else parts[0] + Join(parts[1..])
  }

  /** The path without its slashes. */
  function RemoveSlashes(s: string): (r: string)
    ensures '/' !in r
  {
    if s == [] then [] else (if s[0] == '/' then [] else [s[0]]) + RemoveSlashes(s[1..])
  }

  /** The non-empty segments of a path. */
  function Segments(pathname: string): (segments: seq<string>)
    ensures forall i :: 0 <= i < |segments| ==> segments[i] != [] && '/' !in segments[i]
  {
    NonEmpty(SplitPath(pathname))
  }

  lemma {:induction false} JoinSplit(s: string)
    ensures Join(SplitPath(s)) == RemoveSlashes(s)
  {
    if s != [] {
      JoinSplit(s[1..]);
      var rest := SplitPath(s[1..]);
      if s[0] != '/' {
        assert Join(rest) == rest[0] + Join(rest[1..]);
      }
    }
  }

  lemma {:induction false} JoinNonEmpty(parts: seq<string>)
    ensures Join(NonEmpty(parts)) == Join(parts)
  {
    if parts != [] {
      JoinNonEmpty(parts[1..]);
    }
  }

  /** Joining the segments of a path gives the path without its slashes. */
  lemma JoinSegments(pathname: string)
    ensures Join(Segments(pathname)) == RemoveSlashes(pathname)
  {
    JoinSplit(pathname);
    JoinNonEmpty(SplitPath(pathname));
  }

  lemma {:induction false} JoinSlashFree(parts: seq<string>)
    requires forall i :: 0 <= i < |parts| ==> '/' !in parts[i]
    ensures '/' !in Join(parts)
  {
    if parts != [] {
      JoinSlashFree(parts[1..]);
    }
  }

  /** The trimmed site base; the empty string when there is none. */
  function SiteBase(siteBase: Option<string>): (base: string)
    ensures siteBase.None? ==> base == ""
    ensures base != [] ==> !IsSpace(base[0]) && !IsSpace(base[|base| - 1])
  {
    if siteBase.Some? then Trim(siteBase.value) else ""
  }

  /** The segments that remain once a leading site-base segment is dropped. */
  function SegmentsBelowBase(pathname: string, siteBase: Option<string>): seq<string> {
    var segments := Segments(pathname);
    var base := SiteBase(siteBase);
    if base != "" && |segments| > 0 && segments[0] == base then segments[1..] else segments
  }

  /**
   * `extractDescriptorFromPath`: the segments after an optional leading site
   * base, glued together; "" when none remain or the first is `earth-view`.
   */
  function ExtractDescriptorFromPath(pathname: string, siteBase: Option<string>): (r: string)
    ensures '/' !in r
  {
    var remaining := SegmentsBelowBase(pathname, siteBase);
    if |remaining| == 0 then ""
    else if remaining[0] == "earth-view" then ""
    else
      JoinSlashFree(remaining);
      Join(remaining)
  }

  /** The result is empty exactly when no segment remains or the first remaining one is `earth-view`. */
  lemma ExtractEmptyExactly(pathname: string, siteBase: Option<string>)
    ensures var remaining := SegmentsBelowBase(pathname, siteBase);
      ExtractDescriptorFromPath(pathname, siteBase) == "" <==> (remaining == [] || remaining[0] == "earth-view")
  {
    var remaining := SegmentsBelowBase(pathname, siteBase);
    if remaining != [] {
      assert |Join(remaining)| >= |remaining[0]| > 0;
    }
  }

  /** Without a site base in front and without the sentinel, the descriptor is the path minus its slashes. */
  lemma ExtractWithoutBase(pathname: string, siteBase: Option<string>)
    requires var segments := Segments(pathname);
      segments == [] || (segments[0] != SiteBase(siteBase) && segments[0] != "earth-view")
    ensures ExtractDescriptorFromPath(pathname, siteBase) == RemoveSlashes(pathname)
  {
    JoinSegments(pathname);
  }

  lemma {:induction false} SplitAfterSegment(b: string, rest: string)
    requires '/' !in b
    ensures SplitPath(b + "/" + rest) == [b] + SplitPath(rest)
  {
    if b == [] {
      assert b + "/" + rest == "/" + rest;
      assert ("/" + rest)[1..] == rest;
    } else {
      assert (b + "/" + rest)[1..] == b[1..] + "/" + rest;
      SplitAfterSegment(b[1..], rest);
      assert [b[0]] + b[1..] == b;
    }
  }

  lemma NonEmptyCons(x: string, parts: seq<string>)
    ensures NonEmpty([x] + parts) == (if x == [] then [] else [x]) + NonEmpty(parts)
  {
    assert ([x] + parts)[0] == x && ([x] + parts)[1..] == parts;
  }

  /** A leading site-base segment is dropped, and only it: what follows is read as if there were no base. */
  lemma ExtractBelowBase(rest: string, siteBase: Option<string>)
    requires SiteBase(siteBase) != "" && '/' !in SiteBase(siteBase)
    ensures ExtractDescriptorFromPath("/" + SiteBase(siteBase) + "/" + rest, siteBase)
         == ExtractDescriptorFromPath(rest, None)
  {
    var b := SiteBase(siteBase);
    var path := "/" + b + "/" + rest;
    assert path == [] + "/" + (b + "/" + rest);
    SplitAfterSegment([], b + "/" + rest);
    SplitAfterSegment(b, rest);
    assert SplitPath(path) == [[]] + ([b] + SplitPath(rest));
    NonEmptyCons([], [b] + SplitPath(rest));
    NonEmptyCons(b, SplitPath(rest));
    assert Segments(path) == [b] + Segments(rest);
    assert SegmentsBelowBase(path, siteBase) == Segments(rest);
    assert SegmentsBelowBase(rest, None) == Segments(rest);
  }
}
