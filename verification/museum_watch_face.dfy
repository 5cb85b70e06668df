/** Theme and watch-mode palette selection of `ClockwiseSampleMuseumWatchFace`,
    the second-hand visibility rule of its `onDraw`, and the update gating of
    its `onTimeChanged`. Canvas, bitmap decoding and float geometry are not
    modelled; the scaled circle diameter enters already truncated to `int`. */
module MuseumWatchFace {
  import opened Wrappers
  import opened PrefCodec
  import opened SharedPreferencesUtil

  /** Theme preference name. */
  const PrefLightTheme: string := "pref_clockwise_sample_light_theme"

  // Design colours, as ARGB words.
  const DarkMinutes: int := 0xFFFFFFFF
  const DarkHours: int := 0xFFFFFFFF
  const DarkSeconds: int := 0xFFe51c23
  const DarkBackground: int := 0xFF212121
  const DarkTimeText: int := 0xFFFFFFFF
  const DarkDateText: int := 0x42FFFFFF
  const LightMinutes: int := 0xFF212121
  const LightHours: int := 0xFF212121
  const LightSeconds: int := 0xFFe51c23
  const LightBackground: int := 0xFFfafafa
  const LightTimeText: int := 0xFF212121
  const LightDateText: int := 0x8A000000
  const LowBitBackground: int := 0xFF000000
  const LowBitForeground: int := 0xFFFFFFFF
  /** The colour of a freshly constructed `Paint`. */
  const PaintDefault: int := 0xFF000000

  /** The watch modes of the clockwise library. */
  datatype WatchMode = Interactive | Ambient | LowBit | BurnIn | LowBitBurnIn

  /** Which background bitmap the next draw uses (the bitmaps themselves are
      not modelled). */
  datatype Bitmap = NoBitmap | DarkBitmap | LightBitmap | LowBitBitmap

  /** The colours and bitmap the next draw cycle uses. */
  datatype Paints = Paints(background: int, bitmap: Bitmap, timeText: int, dateText: int,
                           secondHand: int, minuteDot: int, hourDot: int)

  /** The palette-relevant state of the watch face. The low-bit bitmap is
      loaded only by `onLayout`; until then it is null. */
  datatype Face = Face(lightTheme: bool, mode: WatchMode, circleDiameter: int, lowBitLoaded: bool, paints: Paints)

  /** Reference palettes, one per look. */
  const LightPalette: Paints :=
    Paints(LightBackground, LightBitmap, LightTimeText, LightDateText, LightSeconds, LightMinutes, LightHours)
  const DarkPalette: Paints :=
    Paints(DarkBackground, DarkBitmap, DarkTimeText, DarkDateText, DarkSeconds, DarkMinutes, DarkHours)
  const LowBitPalette: Paints :=
    Paints(LowBitBackground, LowBitBitmap, LowBitForeground, LowBitForeground, PaintDefault, LowBitForeground, LowBitForeground)

  /** The palette a mode and theme call for. */
  function Target(mode: WatchMode, light: bool): Paints {
    match mode
    case Interactive => if light then LightPalette else DarkPalette
    case Ambient => DarkPalette
    case _ => LowBitPalette
  }

  /** Two paint sets agree on everything except the second-hand colour. */
  predicate SameExceptSeconds(p: Paints, q: Paints) {
    p.(secondHand := 0) == q.(secondHand := 0)
  }

  /** The state a new face starts in: dark theme flag, dark background
      colour, no layout yet (diameter 0, no bitmap loaded), default paint
      colours. */
  function InitialFace(mode: WatchMode): (f: Face)
    ensures !f.lightTheme && f.paints.background == DarkBackground && f.circleDiameter == 0
    ensures !f.lowBitLoaded && f.paints.bitmap == NoBitmap
  {
    Face(false, mode, 0, false,
         Paints(DarkBackground, NoBitmap, PaintDefault, PaintDefault, PaintDefault, PaintDefault, PaintDefault))
  }

  /** The low-bit bitmap field: null until `onLayout` has loaded it. */
  function LowBitBitmapOf(f: Face): Bitmap {
    if f.lowBitLoaded then LowBitBitmap else NoBitmap
  }

  /** `applyInteractiveState`: nothing before layout gives a positive
      diameter; otherwise the light set exactly when the theme is light. */
  function ApplyInteractiveState(f: Face): (r: Face)
    ensures r.lightTheme == f.lightTheme && r.mode == f.mode && r.circleDiameter == f.circleDiameter
    ensures r.lowBitLoaded == f.lowBitLoaded
    ensures f.circleDiameter <= 0 ==> r == f
    ensures f.circleDiameter > 0 ==> (r.paints.background == LightBackground <==> f.lightTheme)
    ensures f.circleDiameter > 0 ==> r.paints == (if f.lightTheme then LightPalette else DarkPalette)
  {
    if f.circleDiameter <= 0 then f
    else if f.lightTheme then
      f.(paints := f.paints.(background := LightBackground, bitmap := LightBitmap,
                             timeText := LightTimeText, dateText := LightDateText,
                             secondHand := LightSeconds, minuteDot := LightMinutes, hourDot := LightHours))
    else
      f.(paints := f.paints.(background := DarkBackground, bitmap := DarkBitmap,
                             timeText := DarkTimeText, dateText := DarkDateText,
                             secondHand := DarkSeconds, minuteDot := DarkMinutes, hourDot := DarkHours))
  }

  /** `applyAmbientState`: the dark colours whatever the theme, second-hand
      colour left as it was; nothing before layout. */
  function ApplyAmbientState(f: Face): (r: Face)
    ensures r.lightTheme == f.lightTheme && r.mode == f.mode && r.circleDiameter == f.circleDiameter
    ensures r.lowBitLoaded == f.lowBitLoaded
    ensures f.circleDiameter <= 0 ==> r == f
    ensures f.circleDiameter > 0 ==> SameExceptSeconds(r.paints, DarkPalette)
    ensures r.paints.secondHand == f.paints.secondHand
  {
    if f.circleDiameter <= 0 then f
    else
      f.(paints := f.paints.(background := DarkBackground, bitmap := DarkBitmap,
                             timeText := DarkTimeText, dateText := DarkDateText,
                             minuteDot := DarkMinutes, hourDot := DarkHours))
  }

  /** `applyLowBitState`: black background, white text and hands, whatever
      the theme and even before layout; second-hand colour left as it was.
      The bitmap is the low-bit one, which is still null before layout. */
  function ApplyLowBitState(f: Face): (r: Face)
    ensures r.lightTheme == f.lightTheme && r.mode == f.mode && r.circleDiameter == f.circleDiameter
    ensures r.lowBitLoaded == f.lowBitLoaded
    ensures SameExceptSeconds(r.paints.(bitmap := LowBitBitmap), LowBitPalette)
    ensures r.paints.bitmap == (if f.lowBitLoaded then LowBitBitmap else NoBitmap)
    ensures r.paints.background == LowBitBackground
    ensures r.paints.secondHand == f.paints.secondHand
  {
    f.(paints := f.paints.(background := LowBitBackground, bitmap := LowBitBitmapOf(f),
                           timeText := LowBitForeground, dateText := LowBitForeground,
                           minuteDot := LowBitForeground, hourDot := LowBitForeground))
  }

  /** `refreshCurrentState`, stated by the palettes it yields: once laid
      out, interactive mode shows the theme's palette, ambient mode the dark
      one whatever the theme, and the other modes the low-bit one, so every
      mode shows its target palette apart from the second-hand colour; before
      layout the interactive and ambient paths change nothing. */
  function RefreshCurrentState(f: Face): (r: Face)
    ensures r.lightTheme == f.lightTheme && r.mode == f.mode && r.circleDiameter == f.circleDiameter
    ensures r.lowBitLoaded == f.lowBitLoaded
    ensures f.mode == Interactive && f.circleDiameter > 0 ==>
      r.paints == (if f.lightTheme then LightPalette else DarkPalette)
    ensures f.mode == Ambient && f.circleDiameter > 0 ==> SameExceptSeconds(r.paints, DarkPalette)
    ensures f.mode !in {Interactive, Ambient} ==>
      SameExceptSeconds(r.paints.(bitmap := LowBitBitmap), LowBitPalette) && r.paints.bitmap == LowBitBitmapOf(f)
    ensures f.mode != Interactive ==> r.paints.secondHand == f.paints.secondHand
    ensures f.mode in {Interactive, Ambient} && f.circleDiameter <= 0 ==> r == f
    ensures f.circleDiameter > 0 && f.lowBitLoaded ==> SameExceptSeconds(r.paints, Target(f.mode, f.lightTheme))
  {
    match f.mode
    case Interactive => ApplyInteractiveState(f)
    case Ambient => ApplyAmbientState(f)
    case _ => ApplyLowBitState(f)
  }

  /** `setCurrentThemeLight`: a no-op when the flag is unchanged; otherwise
      sets the flag and re-applies the palette. */
  function SetCurrentThemeLight(f: Face, light: bool): (r: Face)
    ensures r.lightTheme == light && r.mode == f.mode && r.circleDiameter == f.circleDiameter
    ensures f.lightTheme == light ==> r == f
    ensures f.lightTheme != light ==> r == RefreshCurrentState(f.(lightTheme := light))
  {
    if f.lightTheme == light then f
    else RefreshCurrentState(f.(lightTheme := light))
  }

  /** `preferences.getBoolean(key, false)`: false for a missing key, the
      flag for a boolean, a ClassCastException for any other type. */
  function GetBoolean(prefs: Store, key: string, default: bool): (r: Result<bool, Error>)
    ensures key !in prefs ==> r == Success(default)
    ensures key in prefs ==> (r.Success? <==> prefs[key].BoolV?)
    ensures r.Failure? ==> r.error == ClassCast
    ensures r.Success? && key in prefs ==> Lookup(prefs, key) == JBoolean(r.value)
  {
    if key !in prefs then Success(default)
    else match prefs[key]
      case BoolV(b) => Success(b)
      case _ => Failure(ClassCast)
  }

  /** `updateConfiguration`: read the theme flag (missing means dark) and
      set it. */
  function UpdateConfiguration(f: Face, prefs: Store): (r: Result<Face, Error>)
    ensures PrefLightTheme !in prefs ==> r == Success(SetCurrentThemeLight(f, false))
    ensures r.Success? <==> (PrefLightTheme in prefs ==> prefs[PrefLightTheme].BoolV?)
    ensures r.Failure? ==> r.error == ClassCast
    ensures r.Success? ==> (r.value.lightTheme <==> Lookup(prefs, PrefLightTheme) == JBoolean(true))
  {
    match GetBoolean(prefs, PrefLightTheme, false)
    case Success(light) => Success(SetCurrentThemeLight(f, light))
    case Failure(e) => Failure(e)
  }

  /** `onWatchModeChanged`: the library has already switched the current
      mode; once laid out, the face shows the new mode's palette. */
  function OnWatchModeChanged(f: Face, mode: WatchMode): (r: Face)
    ensures r.mode == mode && r.lightTheme == f.lightTheme && r.circleDiameter == f.circleDiameter
    ensures r.lowBitLoaded == f.lowBitLoaded
    ensures f.circleDiameter > 0 && f.lowBitLoaded ==> SameExceptSeconds(r.paints, Target(mode, f.lightTheme))
    ensures f.circleDiameter > 0 && mode == Interactive ==> r.paints == Target(mode, f.lightTheme)
  {
    RefreshCurrentState(f.(mode := mode))
  }

  /** The palette part of `onLayout`: take the new truncated diameter,
      load the low-bit bitmap scaled to it, and re-apply the palette. Scaling
      to a diameter <= 0 throws an IllegalArgumentException before the
      refresh. */
  function OnLayout(f: Face, circleDiameter: int): (r: Result<Face, Error>)
    ensures r.Failure? <==> circleDiameter <= 0
    ensures r.Failure? ==> r.error == IllegalBitmapSize
    ensures r.Success? ==>
      && r.value.circleDiameter == circleDiameter && r.value.mode == f.mode && r.value.lightTheme == f.lightTheme
      && r.value.lowBitLoaded
      && SameExceptSeconds(r.value.paints, Target(f.mode, f.lightTheme))
      && (f.mode == Interactive ==> r.value.paints == Target(f.mode, f.lightTheme))
  {
    if circleDiameter <= 0 then Failure(IllegalBitmapSize)
    else Success(RefreshCurrentState(f.(circleDiameter := circleDiameter, lowBitLoaded := true)))
  }

  /** What `onDraw` paints, in order. */
  datatype Layer =
    | BackgroundColour(colour: int)
    | BackgroundBitmap(bitmap: Bitmap)
    | TimeText(colour: int)
    | DateText(colour: int)
    | SecondHand(colour: int)
    | MinuteDot(colour: int)
    | HourDot(colour: int)

  /** `onDraw`: reading the current bitmap's size throws a
      NullPointerException while no bitmap is set. Otherwise the second hand
      is drawn in interactive mode only, and the minute and hour dots always,
      last. */
  function Draw(f: Face): (r: Result<seq<Layer>, Error>)
    ensures r.Failure? <==> f.paints.bitmap == NoBitmap
    ensures r.Failure? ==> r.error == NullPointer
    ensures r.Success? ==> (SecondHand(f.paints.secondHand) in r.value <==> f.mode == Interactive)
    ensures r.Success? ==> ((exists c :: SecondHand(c) in r.value) <==> f.mode == Interactive)
    ensures r.Success? ==> |r.value| >= 6 && r.value[0] == BackgroundColour(f.paints.background)
    ensures r.Success? ==> r.value[1] == BackgroundBitmap(f.paints.bitmap)
    ensures r.Success? ==> r.value[|r.value| - 2..] == [MinuteDot(f.paints.minuteDot), HourDot(f.paints.hourDot)]
  {
    if f.paints.bitmap == NoBitmap then Failure(NullPointer)
    else
    var back := [BackgroundColour(f.paints.background), BackgroundBitmap(f.paints.bitmap),
                 TimeText(f.paints.timeText), DateText(f.paints.dateText)];
    var hands := [MinuteDot(f.paints.minuteDot), HourDot(f.paints.hourDot)];
    if f.mode == Interactive then Success(back + [SecondHand(f.paints.secondHand)] + hands)
    else Success(back + hands)
  }

  /** A new face whose preferences carry no theme entry stays dark: reading
      the missing flag gives false, which the setter treats as no change. */
  lemma MissingThemeReadsDark(mode: WatchMode, prefs: Store)
    requires PrefLightTheme !in prefs
    ensures UpdateConfiguration(InitialFace(mode), prefs) == Success(InitialFace(mode))
    ensures InitialFace(mode).paints.background == 0xFF212121
  {
  }

  /** A face shows what its mode and theme call for, once laid out: the
      second-hand colour only matters where the second hand is drawn. */
  ghost predicate Consistent(f: Face) {
    f.circleDiameter > 0 ==>
      && f.lowBitLoaded
      && SameExceptSeconds(f.paints, Target(f.mode, f.lightTheme))
      && (f.mode == Interactive ==> f.paints.secondHand == Target(f.mode, f.lightTheme).secondHand)
  }

  /** Re-applying the palette makes consistent any face whose low-bit
      bitmap is loaded once it is laid out. */
  lemma RefreshIsConsistent(f: Face)
    requires f.circleDiameter > 0 ==> f.lowBitLoaded
    ensures Consistent(RefreshCurrentState(f))
  {
  }

  /** The initial face is consistent, and every palette operation keeps a
      face consistent: the colours drawn always follow mode and theme. */
  lemma OperationsKeepConsistency(f: Face, light: bool, mode: WatchMode, diameter: int, prefs: Store)
    requires Consistent(f)
    ensures Consistent(InitialFace(mode))
    ensures Consistent(SetCurrentThemeLight(f, light))
    ensures Consistent(OnWatchModeChanged(f, mode))
    ensures OnLayout(f, diameter).Success? ==> Consistent(OnLayout(f, diameter).value)
    ensures UpdateConfiguration(f, prefs).Success? ==> Consistent(UpdateConfiguration(f, prefs).value)
  {
    RefreshIsConsistent(f.(lightTheme := light));
    RefreshIsConsistent(f.(mode := mode));
    RefreshIsConsistent(f.(circleDiameter := diameter, lowBitLoaded := true));
    if UpdateConfiguration(f, prefs).Success? {
      var l := GetBoolean(prefs, PrefLightTheme, false).value;
      RefreshIsConsistent(f.(lightTheme := l));
    }
  }

  /** On a consistent, laid-out interactive face the drawn background is the
      light one exactly when the theme is light, and the second hand is red. */
  lemma InteractiveDrawFollowsTheme(f: Face)
    requires Consistent(f) && f.circleDiameter > 0 && f.mode == Interactive
    ensures Draw(f).Success?
    ensures Draw(f).value[0] == BackgroundColour(if f.lightTheme then LightBackground else DarkBackground)
    ensures SecondHand(0xFFe51c23) in Draw(f).value
  {
  }

  /** Drawing never throws once the face is laid out and consistent, in any
      mode; before the first layout every mode throws, the low-bit ones
      included, since their bitmap is not loaded yet. */
  lemma DrawNeedsLayout(f: Face, mode: WatchMode, light: bool)
    ensures Consistent(f) && f.circleDiameter > 0 ==> Draw(f).Success?
    ensures Draw(InitialFace(mode)) == Failure(NullPointer)
    ensures Draw(SetCurrentThemeLight(InitialFace(mode), light)) == Failure(NullPointer)
    ensures Draw(OnWatchModeChanged(InitialFace(Interactive), mode)) == Failure(NullPointer)
  {
  }

  /** A time reading of `WatchFaceTime`, reduced to the fields the gating uses. */
  datatype FaceTime = FaceTime(year: int, month: int, monthDay: int, hour: int, minute: int, second: int,
                               timezone: string)

  predicate HasTimeZoneChanged(newTime: FaceTime, oldTime: FaceTime) { newTime.timezone != oldTime.timezone }
  predicate HasMinuteChanged(newTime: FaceTime, oldTime: FaceTime) { newTime.minute != oldTime.minute }
  predicate HasHourChanged(newTime: FaceTime, oldTime: FaceTime) { newTime.hour != oldTime.hour }
  predicate HasDateChanged(newTime: FaceTime, oldTime: FaceTime) {
    newTime.year != oldTime.year || newTime.month != oldTime.month || newTime.monthDay != oldTime.monthDay
  }

  /** The time-dependent state: the formatters' time zone, the reading the
      time and date text were last formatted from, and the reading the hand
      angles were last computed from. */
  datatype Clock = Clock(formatZone: string, textTime: FaceTime, handTime: FaceTime)

  /** The text shows `t` up to the minute. */
  predicate TextShows(c: Clock, t: FaceTime) {
    && c.textTime.year == t.year && c.textTime.month == t.month && c.textTime.monthDay == t.monthDay
    && c.textTime.hour == t.hour && c.textTime.minute == t.minute
  }

  /** `onTimeChanged`: the formatters follow a time-zone change, the text is
      re-formatted only when the minute, hour or date changed, and the hands
      follow every tick. */
  function OnTimeChanged(c: Clock, oldTime: FaceTime, newTime: FaceTime): (r: Clock)
    ensures r.handTime == newTime
    ensures r.formatZone == (if newTime.timezone != oldTime.timezone then newTime.timezone else c.formatZone)
    ensures r.textTime == c.textTime <==>
      (c.textTime == newTime || (newTime.minute == oldTime.minute && newTime.hour == oldTime.hour &&
       newTime.year == oldTime.year && newTime.month == oldTime.month && newTime.monthDay == oldTime.monthDay))
  {
    var zone := if HasTimeZoneChanged(newTime, oldTime) then newTime.timezone else c.formatZone;
    var text :=
      if HasMinuteChanged(newTime, oldTime) || HasHourChanged(newTime, oldTime) || HasDateChanged(newTime, oldTime)
      then newTime else c.textTime;
    Clock(zone, text, newTime)
  }

  /** A clock whose text showed the previous reading, and whose formatters
      were in its zone, still does so for the new reading after a tick. */
  lemma TickKeepsClockCurrent(c: Clock, oldTime: FaceTime, newTime: FaceTime)
    requires TextShows(c, oldTime) && c.formatZone == oldTime.timezone
    ensures TextShows(OnTimeChanged(c, oldTime, newTime), newTime)
    ensures OnTimeChanged(c, oldTime, newTime).formatZone == newTime.timezone
  {
  }
}
