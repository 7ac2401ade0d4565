/**
 * Resolution of the parsed command line into what main needs (the
 * constructor of class Cmdline in src/Cmdline.cpp): the subcommand, the mode
 * looked up by name, and the optional speed or brightness level.
 */
module Cmdline {
  import opened Wrappers
  import opened PulsarTypes

  /** The subcommands the program accepts. */
  datatype Subcommand = Backlight | Keylight | Brightness

  /** Backlight effect names as typed on the command line. */
  const BacklightMap: map<string, BacklightMode> := map[
    "off" := BackOff,
    "breathing" := Breathing,
    "static" := Static,
    "alternatewave" := AlternateWave,
    "scanwave" := ScanWave,
    "wave-right" := WaveRight,
    "wave-down" := WaveDown,
    "rippling-left" := RipplingLeft,
    "rippling-right" := RipplingRight,
    "fireworks" := Fireworks,
    "star" := Star,
    "boom" := Boom
  ]

  /** Keylight effect names as typed on the command line. */
  const KeylightMap: map<string, KeylightMode> := map[
    "off" := KeyOff,
    "fade" := Fade,
    "hexagon" := Hexagon,
    "ripple" := Ripple,
    "runoutsig" := RunOutSig,
    "runinsig" := RunInSig,
    "runin" := RunIn
  ]

  /** The name under which a backlight mode is listed: every mode has one. */
  function BacklightName(m: BacklightMode): (n: string)
    ensures n in BacklightMap && BacklightMap[n] == m
  {
    match m
    case BackOff => "off"
    case Breathing => "breathing"
    case Static => "static"
    case AlternateWave => "alternatewave"
    case ScanWave => "scanwave"
    case WaveRight => "wave-right"
    case WaveDown => "wave-down"
    case RipplingLeft => "rippling-left"
    case RipplingRight => "rippling-right"
    case Fireworks => "fireworks"
    case Star => "star"
    case Boom => "boom"
  }

  /** The name under which a keylight mode is listed: every mode has one. */
  function KeylightName(m: KeylightMode): (n: string)
    ensures n in KeylightMap && KeylightMap[n] == m
  {
    match m
    case KeyOff => "off"
    case Fade => "fade"
    case Hexagon => "hexagon"
    case Ripple => "ripple"
    case RunOutSig => "runoutsig"
    case RunInSig => "runinsig"
    case RunIn => "runin"
  }

  /**
   * BACKLIGHT_MAP is a bijection between its names and the twelve backlight
   * modes: every name maps to the mode whose listed name it is, and every
   * mode is listed.
   */
  lemma BacklightMapBijective()
    ensures forall n :: n in BacklightMap ==> BacklightName(BacklightMap[n]) == n
    ensures forall m: BacklightMode :: BacklightName(m) in BacklightMap
  {
    forall n | n in BacklightMap ensures BacklightName(BacklightMap[n]) == n {
      assert n in BacklightMap.Keys;
      assert n in {"off", "breathing", "static", "alternatewave", "scanwave", "wave-right",
        "wave-down", "rippling-left", "rippling-right", "fireworks", "star", "boom"};
    }
  }

  /**
   * KEYLIGHT_MAP is a bijection between its names and the seven keylight
   * modes: every name maps to the mode whose listed name it is, and every
   * mode is listed.
   */
  lemma KeylightMapBijective()
    ensures forall n :: n in KeylightMap ==> KeylightName(KeylightMap[n]) == n
    ensures forall m: KeylightMode :: KeylightName(m) in KeylightMap
  {
    forall n | n in KeylightMap ensures KeylightName(KeylightMap[n]) == n {
      assert n in KeylightMap.Keys;
      assert n in {"off", "fade", "hexagon", "ripple", "runoutsig", "runinsig", "runin"};
    }
  }

  /**
   * What the argument parser reports once parse_args has returned: the
   * subcommand used with the mode name and optional --speed it captured,
   * or the brightness level, or no subcommand at all.
   */
  datatype ParsedArgs =
    | BacklightUsed(backlightName: string, speed: Option<uint8>)
    | KeylightUsed(keylightName: string, speed: Option<uint8>)
    | BrightnessUsed(level: uint8)
    | NoSubcommand

  /**
   * The exceptions the try block can raise. All three derive from
   * std::logic_error; OutOfRange is the one map::at throws.
   */
  datatype Exception =
    | OutOfRange        // unknown mode name
    | InvalidArgument   // no subcommand specified
    | LogicError        // the parser has no value for --speed

  /**
   * The exceptions that leave the constructor. As written only the first can;
   * the second is the one the no-subcommand branch evidently means to raise.
   */
  datatype CmdlineError =
    | InvalidOperationMode
    | NoSubcommandSpecified

  /**
   * The fields of a constructed Cmdline object. None marks a field the constructor
   * never assigned (indeterminate in the source) or an empty level.
   */
  datatype Settings = Settings(
    subcommand: Option<Subcommand>,
    backlightMode: Option<BacklightMode>,
    keylightMode: Option<KeylightMode>,
    level: Option<uint8>)

  /**
   * The constructor body after parse_args: assign the fields in order until
   * something throws, then let the first matching handler run. An unknown
   * name is rethrown as "Invalid operation mode"; every other exception,
   * including the one for a missing subcommand, only empties the level. So
   * the constructor returns with no subcommand exactly when none was used.
   */
  method Construct(args: ParsedArgs) returns (r: Result<Settings, CmdlineError>)
    ensures r.Failure? <==>
      || (args.BacklightUsed? && args.backlightName !in BacklightMap)
      || (args.KeylightUsed? && args.keylightName !in KeylightMap)
    ensures r.Failure? ==> r.error == InvalidOperationMode
    ensures r.Success? && r.value.subcommand.None? <==> args.NoSubcommand?
    ensures r.Success? && args.BacklightUsed? ==>
      && r.value == Settings(Some(Backlight), Some(BacklightMap[args.backlightName]), None, args.speed)
      && BacklightName(r.value.backlightMode.value) == args.backlightName
    ensures r.Success? && args.KeylightUsed? ==>
      && r.value == Settings(Some(Keylight), None, Some(KeylightMap[args.keylightName]), args.speed)
      && KeylightName(r.value.keylightMode.value) == args.keylightName
    ensures args.BrightnessUsed? ==> r == Success(Settings(Some(Brightness), None, None, Some(args.level)))
    ensures args.NoSubcommand? ==> r == Success(Settings(None, None, None, None))
  {
    var subcommand: Option<Subcommand> := None;
    var backlightMode: Option<BacklightMode> := None;
    var keylightMode: Option<KeylightMode> := None;
    var level: Option<uint8> := None;
    var thrown: Option<Exception> := None;

    // try
    match args {
      case BacklightUsed(name, speed) =>
        subcommand := Some(Backlight);
        if name in BacklightMap {
          backlightMode := Some(BacklightMap[name]);
          if speed.Some? {
            level := Some(speed.value);
          } else {
            thrown := Some(LogicError);
          }
        } else {
          thrown := Some(OutOfRange);
        }
      case KeylightUsed(name, speed) =>
        subcommand := Some(Keylight);
        if name in KeylightMap {
          keylightMode := Some(KeylightMap[name]);
          if speed.Some? {
            level := Some(speed.value);
          } else {
            thrown := Some(LogicError);
          }
        } else {
          thrown := Some(OutOfRange);
        }
      case BrightnessUsed(value) =>
        subcommand := Some(Brightness);
        level := Some(value);
      case NoSubcommand =>
        thrown := Some(InvalidArgument);
    }

    // catch (std::out_of_range), then catch (std::logic_error)
    if thrown == Some(OutOfRange) {
      return Failure(InvalidOperationMode);
    } else if thrown.Some? {
      level := None;
    }
    if backlightMode.Some? {
      BacklightMapBijective();
    }
    if keylightMode.Some? {
      KeylightMapBijective();
    }
    r := Success(Settings(subcommand, backlightMode, keylightMode, level));
  }

  /**
   * The constructor as its no-subcommand branch evidently intends it: the
   * "No subcommand specified" error reaches the caller instead of being
   * swallowed by the std::logic_error handler. Every successful result then
   * carries a subcommand, and the mode field that subcommand reads is set.
   */
  method ConstructCorrected(args: ParsedArgs) returns (r: Result<Settings, CmdlineError>)
    ensures r.Failure? <==>
      || args.NoSubcommand?
      || (args.BacklightUsed? && args.backlightName !in BacklightMap)
      || (args.KeylightUsed? && args.keylightName !in KeylightMap)
    ensures r.Failure? ==> r.error == if args.NoSubcommand? then NoSubcommandSpecified else InvalidOperationMode
    ensures r.Success? ==> r.value.subcommand.Some?
    ensures r.Success? && r.value.subcommand == Some(Backlight) ==> r.value.backlightMode.Some?
    ensures r.Success? && r.value.subcommand == Some(Keylight) ==> r.value.keylightMode.Some?
    ensures r.Success? && r.value.subcommand == Some(Brightness) ==> r.value.level.Some?
  {
    if args.NoSubcommand? {
      return Failure(NoSubcommandSpecified);
    }
    r := Construct(args);
  }
}
