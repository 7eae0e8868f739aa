/**
 * The globe viewer's controller: the rotation-mode table, the cubic
 * ease-out, the single-slot camera transition scheduler, the per-frame
 * update and the mode sequence of start-up and of placing the user's marker.
 */
module Globe {
  import opened Base
  import opened Camera

  const EarthRotationSpeed: real := 0.012
  const CloudRotationSpeed: real := 0.018
  /** Length of the auto-framing flight, in milliseconds. */
  const TransitionDuration: real := 2600.0
  const InitialPosition: Vec3 := Vec3(0.0, 0.25, 3.6)
  const Origin: Vec3 := Vec3(0.0, 0.0, 0.0)

  // ---------------------------------------------------------------------------
  // Rotation modes

  datatype RotationMode = Search | Focusing | Locked | Free {
    function Name(): string {
      match this
      case Search => "search"
      case Focusing => "focusing"
      case Locked => "locked"
      case Free => "free"
    }
  }

  const ModeNames: set<string> := {"search", "focusing", "locked", "free"}

  /** The mode `setRotationMode(name)` selects: a name outside the table means `free`. */
  function ModeNamed(name: string): (m: RotationMode)
    ensures name in ModeNames ==> m.Name() == name
    ensures name !in ModeNames ==> m == Free
  {
    if name == "search" then Search
    else if name == "focusing" then Focusing
    else if name == "locked" then Locked
    else Free
  }

  /** Every mode is selected by its own name, so no mode is unreachable. */
  lemma ModeNamedName(m: RotationMode)
    ensures m.Name() in ModeNames && ModeNamed(m.Name()) == m
  {
  }

  /** Turning speeds, in radians per second. */
  datatype Speeds = Speeds(earth: real, clouds: real)

  /** One row of the `rotationModes` table. */
  function SpeedsOf(mode: RotationMode): (s: Speeds)
    ensures s.earth >= 0.0 && s.clouds > 0.0
    ensures s.earth == 0.0 <==> mode == Locked
  {
    match mode
    case Search => Speeds(EarthRotationSpeed * 3.5, CloudRotationSpeed * 3.0)
    case Focusing => Speeds(EarthRotationSpeed * 1.2, CloudRotationSpeed * 1.6)
    case Locked => Speeds(0.0, CloudRotationSpeed * 0.9)
    case Free => Speeds(EarthRotationSpeed, CloudRotationSpeed * 1.05)
  }

  /** The search mode turns the globe fastest, and the clouds always drift. */
  lemma SearchIsFastest(mode: RotationMode)
    ensures SpeedsOf(mode).earth <= SpeedsOf(Search).earth
    ensures SpeedsOf(mode).clouds <= SpeedsOf(Search).clouds
  {
  }

  // ---------------------------------------------------------------------------
  // What the table lookup does with names inherited from Object.prototype

  /** Property names every plain JavaScript object inherits. */
  const InheritedNames: set<string> := {
    "constructor", "hasOwnProperty", "isPrototypeOf", "propertyIsEnumerable",
    "toLocaleString", "toString", "valueOf", "__proto__",
    "__defineGetter__", "__defineSetter__", "__lookupGetter__", "__lookupSetter__"}

  /** What `rotationModes[name]` yields: a row, an inherited member (truthy, without speeds), or undefined. */
  datatype TableEntry = Row(speeds: Speeds) | InheritedMember | Undefined

  function LookupAsWritten(name: string): (e: TableEntry)
    ensures e.Row? <==> name in ModeNames
    ensures e.InheritedMember? <==> name in InheritedNames
  {
    if name in ModeNames then Row(SpeedsOf(ModeNamed(name)))
    else if name in InheritedNames then InheritedMember
    else Undefined
  }

  /** The name `setRotationMode(name)` stores, as written: only an undefined entry falls back to `free`. */
  function ModeNameAsWritten(name: string): (stored: string)
    ensures name in InheritedNames ==> stored == name
  {
    if LookupAsWritten(name).Undefined? then "free" else name
  }

  /**
   * The earth's turn in one frame, as written: `(rotationModes[m] ||
   * rotationModes.free).earth * delta`; an inherited member has no `earth`,
   * and undefined times a number is NaN.
   */
  function EarthTurnAsWritten(modeName: string, delta: real): Num {
    match LookupAsWritten(modeName)
    case Row(s) => Finite(s.earth * delta)
    case InheritedMember => NaN
    case Undefined => Finite(SpeedsOf(Free).earth * delta)
  }

  /** As written, `setRotationMode("toString")` keeps the name and the next frame turns the earth by NaN. */
  lemma InheritedNameStopsTheGlobe(delta: real)
    ensures ModeNameAsWritten("toString") == "toString"
    ensures EarthTurnAsWritten(ModeNameAsWritten("toString"), delta) == NaN
  {
  }

  /** Outside the inherited names the written lookup and ModeNamed agree, and ModeNamed never yields NaN. */
  lemma ModeNamedAgreesAsWritten(name: string, delta: real)
    requires name !in InheritedNames
    ensures ModeNameAsWritten(name) == ModeNamed(name).Name()
    ensures EarthTurnAsWritten(ModeNameAsWritten(name), delta) == Finite(SpeedsOf(ModeNamed(name)).earth * delta)
  {
    ModeNamedName(ModeNamed(name));
  }

  // ---------------------------------------------------------------------------
  // Easing and interpolation

  function Cube(x: real): real {
    x * x * x
  }

  /** `easeOutCubic(t) = 1 - (1 - t)^3`: on [0, 1] it stays in [0, 1] and is never behind `t`. */
  function EaseOutCubic(t: real): (e: real)
    ensures 0.0 <= t <= 1.0 ==> t <= e <= 1.0
  {
    CubeBelow(1.0 - t);
    1.0 - Cube(1.0 - t)
  }

  /** On [0, 1] the cube lies between 0 and its argument. */
  lemma CubeBelow(u: real)
    ensures 0.0 <= u <= 1.0 ==> 0.0 <= Cube(u) <= u
  {
    if 0.0 <= u <= 1.0 {
      ScaleBetween(u, u, u * u);
      ScaleBetween(u * u, u, u * u * u);
    }
  }

  lemma CubeMonotone(x: real, y: real)
    requires 0.0 <= x <= y
    ensures 0.0 <= Cube(x) <= Cube(y)
  {
    assert x * x <= y * y by {
      assert x * x <= x * y;
      assert x * y <= y * y;
    }
    assert 0.0 <= x * x;
    assert x * x * x <= y * y * x;
    assert y * y * x <= y * y * y;
  }

  /** The ease starts at 0 and ends at 1. */
  lemma EaseEnds()
    ensures EaseOutCubic(0.0) == 0.0 && EaseOutCubic(1.0) == 1.0
  {
  }

  /** On [0, 1] the ease is monotone, stays in [0, 1], and is never behind linear progress. */
  lemma EaseOnUnitInterval(a: real, b: real)
    requires 0.0 <= a <= b <= 1.0
    ensures EaseOutCubic(a) <= EaseOutCubic(b)
    ensures 0.0 <= EaseOutCubic(a) <= 1.0
    ensures a <= EaseOutCubic(a)
  {
    CubeMonotone(1.0 - b, 1.0 - a);
    CubeMonotone(1.0 - a, 1.0);
    var u := 1.0 - a;
    ScaleBetween(u, u, u * u);
    ScaleBetween(u * u, u, u * u * u);
    assert Cube(u) == u * u * u;
  }

  /** `Vector3.lerpVectors(from, to, e)`: from + (to - from) e, coordinate-wise. */
  function Lerp(from: Vec3, to: Vec3, e: real): (r: Vec3)
    ensures e == 0.0 ==> r == from
    ensures e == 1.0 ==> r == to
  {
    Vec3(from.x + (to.x - from.x) * e, from.y + (to.y - from.y) * e, from.z + (to.z - from.z) * e)
  }

  predicate Between(v: real, a: real, b: real) {
    (a <= v <= b) || (b <= v <= a)
  }

  /** Each coordinate lies between those of the two ends. */
  predicate OnSegment(p: Vec3, from: Vec3, to: Vec3) {
    Between(p.x, from.x, to.x) && Between(p.y, from.y, to.y) && Between(p.z, from.z, to.z)
  }

  lemma ScaleBetween(x: real, e: real, w: real)
    requires 0.0 <= x && 0.0 <= e <= 1.0 && w == x * e
    ensures 0.0 <= w <= x
  {
    assert x - x * e == x * (1.0 - e);
  }

  lemma BetweenLerp(a: real, b: real, e: real)
    requires 0.0 <= e <= 1.0
    ensures Between(a + (b - a) * e, a, b)
  {
    var w := (b - a) * e;
    if a <= b {
      ScaleBetween(b - a, e, w);
    } else {
      ScaleBetween(a - b, e, -w);
    }
  }

  /** Interpolation is a convex combination: it starts at `from`, ends at `to`, and stays between them. */
  lemma LerpConvex(from: Vec3, to: Vec3, e: real)
    ensures Lerp(from, to, 0.0) == from && Lerp(from, to, 1.0) == to
    ensures 0.0 <= e <= 1.0 ==> OnSegment(Lerp(from, to, e), from, to)
  {
    if 0.0 <= e <= 1.0 {
      BetweenLerp(from.x, to.x, e);
      BetweenLerp(from.y, to.y, e);
      BetweenLerp(from.z, to.z, e);
    }
  }

  // ---------------------------------------------------------------------------
  // Transitions

  /** What a transition does when it completes; the viewer only ever switches mode. */
  datatype Completion = SwitchMode(name: string) | Retarget(target: Vec3, duration: real)

  datatype Transition = Transition(start: real, duration: real, from: Vec3, to: Vec3, onComplete: Option<Completion>)

  predicate ValidTransition(t: Transition) {
    t.duration > 0.0 && (t.onComplete.Some? && t.onComplete.value.Retarget? ==> t.onComplete.value.duration > 0.0)
  }

  /** `Math.min(elapsed / duration, 1)` */
  function Progress(t: Transition, now: real): (p: real)
    requires t.duration > 0.0
    ensures p <= 1.0
    ensures p == 1.0 <==> now >= t.start + t.duration
    ensures now >= t.start ==> p >= 0.0
    ensures now == t.start ==> p == 0.0
  {
    Ratio(now - t.start, t.duration);
    Min((now - t.start) / t.duration, 1.0)
  }

  lemma PositiveProduct(x: real, y: real)
    requires x > 0.0 && y > 0.0
    ensures x * y > 0.0
  {
  }

  lemma NonNegativeProduct(x: real, y: real)
    requires x >= 0.0 && y >= 0.0
    ensures x * y >= 0.0
  {
  }

  lemma Ratio(a: real, d: real)
    requires d > 0.0
    ensures a / d >= 1.0 <==> a >= d
    ensures a >= 0.0 ==> a / d >= 0.0
    ensures a == 0.0 ==> a / d == 0.0
  {
    var q := a / d;
    assert q * d == a;
    if q >= 1.0 {
      NonNegativeProduct(q - 1.0, d);
      assert a - d == (q - 1.0) * d;
      assert a >= d;
    } else {
      PositiveProduct(1.0 - q, d);
      assert d - a == (1.0 - q) * d;
      assert a < d;
    }
    assert q >= 1.0 <==> a >= d;
    SignOfRatio(a, d, q);
  }

  lemma SignOfRatio(a: real, d: real, q: real)
    requires d > 0.0 && q * d == a
    ensures a >= 0.0 ==> q >= 0.0
    ensures a == 0.0 ==> q == 0.0
  {
    if q < 0.0 {
      PositiveProduct(-q, d);
      assert -a == (-q) * d;
    } else if q > 0.0 {
      PositiveProduct(q, d);
    }
  }

  /** The callback as a list: what one completion fires. */
  function Fired(c: Option<Completion>): seq<Completion> {
    if c.Some? then [c.value] else []
  }

  /** The spin of the meshes: earth, clouds, and the search effects about x and y. */
  datatype Spin = Spin(earth: real, clouds: real, effectsX: real, effectsY: real)

  /** One frame of turning: each angle grows by its speed times `delta`, the effects only while visible. */
  function Advance(spin: Spin, mode: RotationMode, effectsVisible: bool, delta: real): (r: Spin)
    ensures delta >= 0.0 ==> r.earth >= spin.earth && r.clouds >= spin.clouds
    ensures mode == Locked ==> r.earth == spin.earth
    ensures !effectsVisible ==> r.effectsX == spin.effectsX && r.effectsY == spin.effectsY
  {
    var s := SpeedsOf(mode);
    Spin(spin.earth + s.earth * delta, spin.clouds + s.clouds * delta,
         if effectsVisible then spin.effectsX + delta * 0.12 else spin.effectsX,
         if effectsVisible then spin.effectsY + delta * 0.45 else spin.effectsY)
  }

  // ---------------------------------------------------------------------------
  // The user's location

  datatype LocationSource = Device | Ip
  datatype Location = Location(lat: real, lon: real, source: LocationSource)

  /** What the browser's geolocation gave: nothing (absent, refused or failed), or coordinates. */
  datatype DeviceAnswer = NoDeviceFix | DeviceFix(latitude: real, longitude: real)
  /** What the IP lookup gave: an HTTP or network failure, or the numbers read from its answer. */
  datatype IpAnswer = IpFailure | IpFix(latitude: Num, longitude: Num)

  /** `resolveUserLocation`: the device first, then the IP lookup, whose numbers must both be finite. */
  function ResolveUserLocation(device: DeviceAnswer, ip: IpAnswer): (r: Option<Location>)
    ensures device.DeviceFix? ==> r == Some(Location(device.latitude, device.longitude, Device))
    ensures device.NoDeviceFix? ==>
      (r.Some? <==> ip.IpFix? && ip.latitude.IsFinite() && ip.longitude.IsFinite())
    ensures device.NoDeviceFix? && r.Some? ==>
      r.value == Location(ip.latitude.value, ip.longitude.value, Ip)
  {
    match device
    case DeviceFix(lat, lon) => Some(Location(lat, lon, Device))
    case NoDeviceFix =>
      match ip
      case IpFix(Finite(lat), Finite(lon)) => Some(Location(lat, lon, Ip))
      case _ => None
  }

  // ---------------------------------------------------------------------------
  // The viewer

  class Viewer {
    var position: Vec3
    var fov: real
    /** The roll the descriptor asked for, in degrees. */
    var rollDeg: real
    /** The camera's current rotation about its line of sight, in degrees. */
    var viewRoll: real
    var cameraTarget: Vec3
    /** The single transition slot. */
    var job: Option<Transition>
    var mode: RotationMode
    var searchEffectsVisible: bool
    var spin: Spin
    var marker: Option<Location>
    /** Every completion callback run so far, in order. */
    ghost var completed: seq<Completion>

    ghost predicate Valid()
      reads this
    {
      && (job.Some? ==> ValidTransition(job.value))
      && (searchEffectsVisible <==> mode == Search)
    }

    /** The scene as the module sets it up: search mode, camera at (0, 0.25, 3.6) looking at the origin. */
    constructor ()
      ensures Valid()
      ensures position == InitialPosition && fov == DefaultFov && rollDeg == 0.0 && viewRoll == 0.0
      ensures cameraTarget == Origin && job == None && mode == Search && searchEffectsVisible
      ensures spin == Spin(0.0, 0.0, 0.0, 0.0) && marker == None && completed == []
    {
      position := InitialPosition;
      fov := DefaultFov;
      rollDeg := 0.0;
      viewRoll := 0.0;
      cameraTarget := Origin;
      job := None;
      mode := Search;
      searchEffectsVisible := true;
      spin := Spin(0.0, 0.0, 0.0, 0.0);
      marker := None;
      completed := [];
    }

    /** `setRotationMode`: an unknown name means `free`; the search effects show exactly in search mode. */
    method SetRotationMode(name: string)
      modifies this`mode, this`searchEffectsVisible
      ensures mode == ModeNamed(name)
      ensures searchEffectsVisible <==> name == "search"
      ensures old(Valid()) ==> Valid()
    {
      mode := ModeNamed(name);
      searchEffectsVisible := mode == Search;
    }

    /** `startCameraTransition`: the new job replaces any pending one, flying from the current position. */
    method StartCameraTransition(target: Vec3, duration: real, onComplete: Option<Completion>, now: real)
      requires duration > 0.0 && ValidTransition(Transition(now, duration, position, target, onComplete))
      modifies this`job
      ensures job == Some(Transition(now, duration, position, target, onComplete))
      ensures old(Valid()) ==> Valid()
    {
      job := Some(Transition(now, duration, position, target, onComplete));
    }

    /** Runs a completion callback. */
    method RunCompletion(c: Completion, now: real)
      requires Valid() && (c.Retarget? ==> c.duration > 0.0)
      modifies this`mode, this`searchEffectsVisible, this`job, this`completed
      ensures Valid()
      ensures c.SwitchMode? ==> mode == ModeNamed(c.name) && job == old(job)
      ensures c.Retarget? ==> mode == old(mode) && job == Some(Transition(now, c.duration, position, c.target, None))
      ensures completed == old(completed) + [c]
    {
      match c {
        case SwitchMode(name) => SetRotationMode(name);
        case Retarget(target, duration) => StartCameraTransition(target, duration, None, now);
      }
      completed := completed + [c];
    }

    /**
     * `updateCameraTransition`: with no job nothing changes; otherwise the
     * camera moves to the eased point of the flight, and once the flight is
     * over the slot is cleared before the callback runs, exactly once.
     */
    method UpdateCameraTransition(now: real)
      requires Valid()
      modifies this`position, this`mode, this`searchEffectsVisible, this`job, this`completed
      ensures Valid()
      ensures old(job).None? ==>
        position == old(position) && job == None && mode == old(mode) && completed == old(completed)
      ensures old(job).Some? ==>
        position == Lerp(old(job).value.from, old(job).value.to, EaseOutCubic(Progress(old(job).value, now)))
      ensures old(job).Some? && now < old(job).value.start + old(job).value.duration ==>
        job == old(job) && mode == old(mode) && completed == old(completed)
      ensures old(job).Some? && now >= old(job).value.start + old(job).value.duration ==>
        && position == old(job).value.to
        && completed == old(completed) + Fired(old(job).value.onComplete)
        && match old(job).value.onComplete
           case None => job == None && mode == old(mode)
           case Some(SwitchMode(name)) => job == None && mode == ModeNamed(name)
           case Some(Retarget(target, duration)) =>
             mode == old(mode) && job == Some(Transition(now, duration, position, target, None))
      ensures old(job).Some? && now >= old(job).value.start ==>
        OnSegment(position, old(job).value.from, old(job).value.to)
      ensures searchEffectsVisible <==> mode == Search
    {
      if job.None? {
        return;
      }
      var t := job.value;
      var progress := Progress(t, now);
      var eased := EaseOutCubic(progress);
      if now >= t.start {
        EaseOnUnitInterval(progress, 1.0);
      }
      LerpConvex(t.from, t.to, eased);
      position := Lerp(t.from, t.to, eased);
      if progress >= 1.0 {
        job := None;
        if t.onComplete.Some? {
          RunCompletion(t.onComplete.value, now);
        }
      }
    }

    /**
     * The frame's work before the camera is re-aimed: the meshes turn at the
     * speeds of the current mode, and the transition advances.
     */
    method Tick(now: real, delta: real)
      requires Valid()
      modifies this`spin, this`position, this`mode, this`searchEffectsVisible, this`job, this`completed
      ensures Valid()
      ensures spin == Advance(old(spin), old(mode), old(searchEffectsVisible), delta)
      ensures old(job).None? ==>
        position == old(position) && job == None && mode == old(mode) && completed == old(completed)
      ensures old(job).Some? ==>
        position == Lerp(old(job).value.from, old(job).value.to, EaseOutCubic(Progress(old(job).value, now)))
      ensures old(job).Some? && now < old(job).value.start + old(job).value.duration ==>
        job == old(job) && mode == old(mode) && completed == old(completed)
      ensures old(job).Some? && now >= old(job).value.start + old(job).value.duration ==>
        && position == old(job).value.to
        && completed == old(completed) + Fired(old(job).value.onComplete)
        && match old(job).value.onComplete
           case None => job == None && mode == old(mode)
           case Some(SwitchMode(name)) => job == None && mode == ModeNamed(name)
           case Some(Retarget(target, duration)) =>
             mode == old(mode) && job == Some(Transition(now, duration, position, target, None))
    {
      spin := Advance(spin, mode, searchEffectsVisible, delta);
      UpdateCameraTransition(now);
    }

    /**
     * One animation frame: Tick, then the camera is re-aimed at its target
     * and keeps the roll the descriptor asked for.
     */
    method Frame(now: real, delta: real)
      requires Valid()
      modifies this
      ensures Valid()
      ensures viewRoll == rollDeg
      ensures spin == Advance(old(spin), old(mode), old(searchEffectsVisible), delta)
      ensures old(job).None? ==>
        position == old(position) && job == None && mode == old(mode) && completed == old(completed)
      ensures old(job).Some? ==>
        position == Lerp(old(job).value.from, old(job).value.to, EaseOutCubic(Progress(old(job).value, now)))
      ensures old(job).Some? && now >= old(job).value.start + old(job).value.duration ==>
        && position == old(job).value.to
        && completed == old(completed) + Fired(old(job).value.onComplete)
        && match old(job).value.onComplete
           case None => job == None && mode == old(mode)
           case Some(SwitchMode(name)) => job == None && mode == ModeNamed(name)
           case Some(Retarget(target, duration)) =>
             mode == old(mode) && job == Some(Transition(now, duration, position, target, None))
      ensures old(job).Some? && now < old(job).value.start + old(job).value.duration ==>
        job == old(job) && mode == old(mode) && completed == old(completed)
      ensures fov == old(fov) && rollDeg == old(rollDeg) && cameraTarget == old(cameraTarget) && marker == old(marker)
    {
      Tick(now, delta);
      viewRoll := rollDeg;
    }

    /** One animation frame as written: `camera.lookAt` rebuilds the orientation with no roll. */
    method FrameAsWritten(now: real, delta: real)
      requires Valid()
      modifies this
      ensures Valid()
      ensures viewRoll == 0.0
      ensures spin == Advance(old(spin), old(mode), old(searchEffectsVisible), delta)
      ensures old(job).None? ==>
        position == old(position) && job == None && mode == old(mode) && completed == old(completed)
      ensures old(job).Some? ==>
        position == Lerp(old(job).value.from, old(job).value.to, EaseOutCubic(Progress(old(job).value, now)))
      ensures old(job).Some? && now >= old(job).value.start + old(job).value.duration ==>
        && position == old(job).value.to
        && completed == old(completed) + Fired(old(job).value.onComplete)
        && match old(job).value.onComplete
           case None => job == None && mode == old(mode)
           case Some(SwitchMode(name)) => job == None && mode == ModeNamed(name)
           case Some(Retarget(target, duration)) =>
             mode == old(mode) && job == Some(Transition(now, duration, position, target, None))
      ensures old(job).Some? && now < old(job).value.start + old(job).value.duration ==>
        job == old(job) && mode == old(mode) && completed == old(completed)
      ensures fov == old(fov) && rollDeg == old(rollDeg) && cameraTarget == old(cameraTarget) && marker == old(marker)
    {
      Tick(now, delta);
      viewRoll := 0.0;
    }

    /** `applyCameraDescriptor`: a descriptor that parses moves, zooms and rolls the camera, aimed at the origin. */
    method ApplyCameraDescriptor(descriptor: string)
      modifies this`position, this`fov, this`rollDeg, this`viewRoll, this`cameraTarget
      ensures Applied(ParseCameraDescriptor(descriptor), old(position), old(fov), old(rollDeg), old(viewRoll), old(cameraTarget))
    {
      ApplyParsed(ParseCameraDescriptor(descriptor));
    }

    method ApplyParsed(parsed: Option<CameraState>)
      modifies this`position, this`fov, this`rollDeg, this`viewRoll, this`cameraTarget
      ensures Applied(parsed, old(position), old(fov), old(rollDeg), old(viewRoll), old(cameraTarget))
    {
      if parsed.None? {
        return;
      }
      position := parsed.value.position;
      fov := parsed.value.fov;
      cameraTarget := Origin;
      rollDeg := parsed.value.rollDeg;
      viewRoll := parsed.value.rollDeg;
    }

    /** The camera after a parse: untouched when it failed, the parsed camera aimed at the origin otherwise. */
    ghost predicate Applied(parsed: Option<CameraState>, position0: Vec3, fov0: real, rollDeg0: real, viewRoll0: real, target0: Vec3)
      reads this
    {
      && (parsed.None? ==>
            position == position0 && fov == fov0 && rollDeg == rollDeg0
            && viewRoll == viewRoll0 && cameraTarget == target0)
      && (parsed.Some? ==>
            position == parsed.value.position && fov == parsed.value.fov && rollDeg == parsed.value.rollDeg
            && viewRoll == parsed.value.rollDeg && cameraTarget == Origin)
    }

    /**
     * `init` up to the location lookup: a descriptor in the path that parses
     * is applied and selects `free`, otherwise `search`; the answer is whether
     * the marker should frame the camera automatically.
     */
    method Init(pathname: string, siteBase: Option<string>) returns (autoFrame: bool)
      requires Valid()
      modifies this
      ensures Valid()
      ensures StartedWith(ParseCameraDescriptor(ExtractDescriptorFromPath(pathname, siteBase)), autoFrame,
                          old(position), old(fov), old(rollDeg), old(viewRoll), old(cameraTarget))
      ensures job == old(job) && spin == old(spin) && marker == old(marker) && completed == old(completed)
    {
      var descriptor := ExtractDescriptorFromPath(pathname, siteBase);
      autoFrame := InitWith(ParseCameraDescriptor(descriptor));
    }

    /**
     * The rest of init, given the parse of the path's descriptor. Applying the
     * descriptor parses the same text again, to the same result, so it is
     * ApplyParsed of that result.
     */
    method InitWith(parsed: Option<CameraState>) returns (autoFrame: bool)
      requires Valid()
      modifies this
      ensures Valid()
      ensures StartedWith(parsed, autoFrame, old(position), old(fov), old(rollDeg), old(viewRoll), old(cameraTarget))
      ensures job == old(job) && spin == old(spin) && marker == old(marker) && completed == old(completed)
    {
      var hasCustomCamera := parsed.Some?;
      if hasCustomCamera {
        ApplyParsed(parsed);
        SetRotationMode("free");
      } else {
        SetRotationMode("search");
      }
      autoFrame := !hasCustomCamera;
    }

    /**
     * The state after init: a parsed descriptor is applied and selects `free`,
     * with no auto-framing; otherwise the camera is untouched, the mode is
     * `search` and the marker will frame the camera.
     */
    ghost predicate StartedWith(parsed: Option<CameraState>, autoFrame: bool,
                                position0: Vec3, fov0: real, rollDeg0: real, viewRoll0: real, target0: Vec3)
      reads this
    {
      && autoFrame == parsed.None?
      && mode == (if parsed.Some? then Free else Search)
      && (parsed.Some? ==>
            position == parsed.value.position && fov == parsed.value.fov
            && rollDeg == parsed.value.rollDeg && viewRoll == parsed.value.rollDeg && cameraTarget == Origin)
      && (parsed.None? ==>
            position == position0 && fov == fov0 && rollDeg == rollDeg0
            && viewRoll == viewRoll0 && cameraTarget == target0)
    }

    /** `placeUserMarker` up to the location lookup: auto-framing starts in search mode. */
    method PlaceUserMarkerStart(autoFrame: bool)
      requires Valid()
      modifies this`mode, this`searchEffectsVisible
      ensures Valid()
      ensures mode == (if autoFrame then Search else old(mode))
    {
      if autoFrame {
        SetRotationMode("search");
      }
    }

    /**
     * `placeUserMarker` once the location is known. No location: `free`.
     * With auto-framing: `focusing`, aimed at the location, and a flight to
     * `framingTarget` whose completion selects `locked`. Without it: `free`,
     * aimed at the origin. `locationPoint` and `framingTarget` are the
     * trigonometry of the source, taken as given.
     */
    method PlaceUserMarkerResume(autoFrame: bool, location: Option<Location>, locationPoint: Vec3, framingTarget: Vec3, now: real)
      requires Valid()
      modifies this
      ensures Valid()
      ensures location.None? ==>
        mode == Free && job == old(job) && marker == old(marker) && cameraTarget == old(cameraTarget)
      ensures location.Some? ==> marker == location
      ensures location.Some? && autoFrame ==>
        && mode == Focusing && cameraTarget == locationPoint
        && job == Some(Transition(now, TransitionDuration, position, framingTarget, Some(SwitchMode("locked"))))
      ensures location.Some? && !autoFrame ==> mode == Free && cameraTarget == Origin && job == old(job)
      ensures position == old(position) && spin == old(spin) && completed == old(completed)
      ensures fov == old(fov) && rollDeg == old(rollDeg) && viewRoll == old(viewRoll)
    {
      if location.None? {
        SetRotationMode("free");
        return;
      }
      marker := location;
      if autoFrame {
        SetRotationMode("focusing");
        cameraTarget := locationPoint;
        StartCameraTransition(framingTarget, TransitionDuration, Some(SwitchMode("locked")), now);
      } else {
        cameraTarget := Origin;
        SetRotationMode("free");
      }
    }
  }

  /**
   * The modes a visitor sees: after init, when the marker placement starts,
   * once the location is resolved from the device's and the IP lookup's
   * answers, and after a frame at the end of the flight.
   */
  method StartupModes(pathname: string, siteBase: Option<string>, device: DeviceAnswer, ip: IpAnswer,
                      locationPoint: Vec3, framingTarget: Vec3, t0: real, delta: real)
    returns (modes: seq<RotationMode>)
    ensures var parsed := ParseCameraDescriptor(ExtractDescriptorFromPath(pathname, siteBase));
      var location := ResolveUserLocation(device, ip);
      && (parsed.Some? ==> modes == [Free, Free, Free, Free])
      && (parsed.None? && location.None? ==> modes == [Search, Search, Free, Free])
      && (parsed.None? && location.Some? ==> modes == [Search, Search, Focusing, Locked])
  {
    var location := ResolveUserLocation(device, ip);
    modes := StartupModesWith(ParseCameraDescriptor(ExtractDescriptorFromPath(pathname, siteBase)),
                              location, locationPoint, framingTarget, t0, delta);
  }

  /** StartupModes, given the parse of the path's descriptor. */
  method StartupModesWith(parsed: Option<CameraState>, location: Option<Location>,
                          locationPoint: Vec3, framingTarget: Vec3, t0: real, delta: real)
    returns (modes: seq<RotationMode>)
    ensures parsed.Some? ==> modes == [Free, Free, Free, Free]
    ensures parsed.None? && location.None? ==> modes == [Search, Search, Free, Free]
    ensures parsed.None? && location.Some? ==> modes == [Search, Search, Focusing, Locked]
  {
    var viewer := new Viewer();
    var autoFrame := viewer.InitWith(parsed);
    var first := viewer.mode;
    var rest := MarkerModes(viewer, autoFrame, location, locationPoint, framingTarget, t0, delta);
    modes := [first] + rest;
  }

  /** The modes after init: placing the marker, resolving the location, and a frame at the end of the flight. */
  method MarkerModes(viewer: Viewer, autoFrame: bool, location: Option<Location>,
                     locationPoint: Vec3, framingTarget: Vec3, t0: real, delta: real)
    returns (modes: seq<RotationMode>)
    requires viewer.Valid() && viewer.job.None?
    requires viewer.mode == (if autoFrame then Search else Free)
    modifies viewer
    ensures !autoFrame ==> modes == [Free, Free, Free]
    ensures autoFrame && location.None? ==> modes == [Search, Free, Free]
    ensures autoFrame && location.Some? ==> modes == [Search, Focusing, Locked]
  {
    viewer.PlaceUserMarkerStart(autoFrame);
    modes := [viewer.mode];
    viewer.PlaceUserMarkerResume(autoFrame, location, locationPoint, framingTarget, t0);
    modes := modes + [viewer.mode];
    viewer.Frame(t0 + TransitionDuration, delta);
    modes := modes + [viewer.mode];
  }

  /**
   * As written, a descriptor's roll is applied at start-up and lost on the
   * first frame; with Frame it is kept on every frame.
   */
  method RollAfterFirstFrame(pathname: string, siteBase: Option<string>, now: real, delta: real)
    returns (asWritten: real, kept: real, requested: real)
    requires ParseCameraDescriptor(ExtractDescriptorFromPath(pathname, siteBase)).Some?
    ensures requested == ParseCameraDescriptor(ExtractDescriptorFromPath(pathname, siteBase)).value.rollDeg
    ensures asWritten == 0.0 && kept == requested
  {
    asWritten, kept, requested := RollAfterFirstFrameWith(
      ParseCameraDescriptor(ExtractDescriptorFromPath(pathname, siteBase)), now, delta);
  }

  /** RollAfterFirstFrame, given the parse of the path's descriptor. */
  method RollAfterFirstFrameWith(parsed: Option<CameraState>, now: real, delta: real)
    returns (asWritten: real, kept: real, requested: real)
    requires parsed.Some?
    ensures requested == parsed.value.rollDeg
    ensures asWritten == 0.0 && kept == requested
  {
    var first := new Viewer();
    var _ := first.InitWith(parsed);
    requested := first.viewRoll;
    first.FrameAsWritten(now, delta);
    asWritten := first.viewRoll;
    var second := new Viewer();
    var _ := second.InitWith(parsed);
    second.Frame(now, delta);
    kept := second.viewRoll;
  }
}
