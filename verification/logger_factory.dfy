/** The NFD logger factory: loggers by module name, a default level, and the two passes over
    the log section of a configuration file. */
module LoggerFactory {
  import opened Tlv
  import opened Logging

  /** One entry of the section, in file order. */
  datatype Item = Item(key: string, value: string)

  datatype Error = NoLevel(key: string) | Unsupported(level: string)

  const DEFAULT_KEY := "default_level"

  // ---------------------------------------------------------------------
  // Levels
  // ---------------------------------------------------------------------

  /** Each small letter becomes the capital in its place of the alphabet. */
  function ToUpper(s: string): (r: string)
    ensures |r| == |s|
    ensures forall i :: 0 <= i < |s| ==>
              if 'a' <= s[i] <= 'z' then 'A' <= r[i] <= 'Z' && r[i] as int - 'A' as int == s[i] as int - 'a' as int
              else r[i] == s[i]
  {
    seq(|s|, i requires 0 <= i < |s| => if 'a' <= s[i] <= 'z' then (s[i] as int - 32) as char else s[i])
  }

  /** The names the factory knows; FATAL is not one of them. */
  function LevelName(s: string): Option<LogLevel> {
    if s == "FATAL" then None else ParseLogLevel(s)
  }

  function LevelNumber(n: nat): Option<LogLevel> {
    if n == 0 then Some(NONE)
    else if n == 1 then Some(ERROR)
    else if n == 2 then Some(WARN)
    else if n == 3 then Some(INFO)
    else if n == 4 then Some(DEBUG)
    else if n == 5 then Some(TRACE)
    else if n == 255 then Some(ALL)
    else None
  }

  /** cast is lexical_cast to a 32-bit number; it may reject the string. */
  function ParseLevel(level: string, cast: string -> Option<nat>): Result<LogLevel, Error> {
    var named := LevelName(ToUpper(level));
    if named.Some? then Success(named.value)
    else
      var number := cast(level);
      if number.Some? && LevelNumber(number.value).Some? then Success(LevelNumber(number.value).value)
      else Failure(Unsupported(level))
  }

  function NumberOf(level: LogLevel): int {
    match level
    case NONE => 0
    case ERROR => 1
    case WARN => 2
    case INFO => 3
    case DEBUG => 4
    case TRACE => 5
    case ALL => 255
    case FATAL => -1
  }

  /** The strings that give a level: its name in any case, or, if no name matches, what is
      cast to its number. FATAL is not a level of the factory. */
  ghost predicate Means(text: string, cast: string -> Option<nat>, level: LogLevel) {
    level != FATAL &&
    (|| ToUpper(text) == LevelText(level)
     || (cast(text) == Some(NumberOf(level)) && forall l :: l != FATAL ==> ToUpper(text) != LevelText(l)))
  }

  lemma LevelsExactly(text: string, cast: string -> Option<nat>, level: LogLevel)
    ensures ParseLevel(text, cast) == Success(level) <==> Means(text, cast, level)
    ensures ParseLevel(text, cast).Success? || ParseLevel(text, cast) == Failure(Unsupported(text))
  {
    hide ToUpper, LevelText, ParseLogLevel;
    var upper := ToUpper(text);
    assert upper == "FATAL" <==> upper == LevelText(FATAL) by { assert LevelText(FATAL) == "FATAL" by { FatalText(); } }
    forall l: LogLevel
      ensures ParseLogLevel(upper) == Some(l) <==> upper == LevelText(l)
    {
      LevelNames(upper, l);
    }
  }

  /** An item without a value has no level; any other has the one its value means. */
  lemma ItemLevelsExactly(item: Item, cast: string -> Option<nat>, level: LogLevel)
    ensures ExtractLevel(item, cast) == Success(level) <==> item.value != "" && Means(item.value, cast, level)
    ensures ExtractLevel(item, cast).Failure? ==>
              ExtractLevel(item, cast).error == if item.value == "" then NoLevel(item.key) else Unsupported(item.value)
  {
    hide ParseLevel, Means;
    LevelsExactly(item.value, cast, level);
  }

  lemma FatalText()
    ensures LevelText(FATAL) == "FATAL"
  {
  }

  function ExtractLevel(item: Item, cast: string -> Option<nat>): Result<LogLevel, Error> {
    if item.value == "" then Failure(NoLevel(item.key)) else ParseLevel(item.value, cast)
  }

  // ---------------------------------------------------------------------
  // The two passes
  // ---------------------------------------------------------------------

  datatype Factory = Factory(loggers: map<string, LogLevel>, defaultLevel: LogLevel)

  function SetDefaultLevel(f: Factory, level: LogLevel): Factory {
    Factory(map m | m in f.loggers :: level, level)
  }

  function CreateLogger(f: Factory, name: string): Factory {
    if name in f.loggers then f else f.(loggers := f.loggers[name := f.defaultLevel])
  }

  /** Where the section has its first item with the given key. */
  function FindKey(section: seq<Item>, key: string): (i: nat)
    ensures i <= |section|
    ensures i < |section| ==> section[i].key == key
    ensures forall k :: 0 <= k < i ==> section[k].key != key
  {
    if section == [] || section[0].key == key then 0 else 1 + FindKey(section[1..], key)
  }

  function Configure(f: Factory, item: Item, level: LogLevel): Factory {
    if item.key == DEFAULT_KEY || item.key !in f.loggers then f
    else f.(loggers := f.loggers[item.key := level])
  }

  datatype Pass = Pass(factory: Factory, error: Option<Error>)

  /** The loop over all items; the dry run only looks. */
  function Loop(f: Factory, section: seq<Item>, isDryRun: bool, cast: string -> Option<nat>): Pass
    decreases |section|
  {
    if section == [] then Pass(f, None)
    else
      match ExtractLevel(section[0], cast)
      case Failure(e) => Pass(f, Some(e))
      case Success(level) =>
        Loop(if isDryRun then f else Configure(f, section[0], level), section[1..], isDryRun, cast)
  }

  function OnConfig(f: Factory, section: seq<Item>, isDryRun: bool, cast: string -> Option<nat>): Pass {
    var i := FindKey(section, DEFAULT_KEY);
    if isDryRun then Loop(f, section, true, cast)
    else if i == |section| then Loop(SetDefaultLevel(f, INFO), section, false, cast)
    else
      match ExtractLevel(section[i], cast)
      case Failure(e) => Pass(f, Some(e))
      case Success(level) => Loop(SetDefaultLevel(f, level), section, false, cast)
  }

  /** The position of the first item whose level cannot be extracted. */
  function FirstBad(section: seq<Item>, cast: string -> Option<nat>): (i: nat)
    ensures i <= |section|
    ensures i < |section| ==> ExtractLevel(section[i], cast).Failure?
    ensures forall k :: 0 <= k < i ==> ExtractLevel(section[k], cast).Success?
  {
    if section == [] || ExtractLevel(section[0], cast).Failure? then 0 else 1 + FirstBad(section[1..], cast)
  }

  /** Both forms of the loop stop at the first bad item, and the dry one changes nothing. */
  lemma {:induction false} LoopError(f: Factory, section: seq<Item>, isDryRun: bool, cast: string -> Option<nat>)
    ensures var i := FirstBad(section, cast);
            Loop(f, section, isDryRun, cast).error ==
              if i == |section| then None else Some(ExtractLevel(section[i], cast).error)
    ensures isDryRun ==> Loop(f, section, isDryRun, cast).factory == f
    decreases |section|
  {
    hide ExtractLevel, Configure;
    if section != [] && ExtractLevel(section[0], cast).Success? {
      var level := ExtractLevel(section[0], cast).value;
      LoopError(if isDryRun then f else Configure(f, section[0], level), section[1..], isDryRun, cast);
    }
  }

  /** A dry run changes no level and raises an error exactly when the real run does. */
  lemma DryRunPredicts(f: Factory, section: seq<Item>, cast: string -> Option<nat>)
    ensures var dry, wet := OnConfig(f, section, true, cast), OnConfig(f, section, false, cast);
            && dry.factory == f
            && (dry.error.Some? <==> wet.error.Some?)
            && (dry.error.Some? <==> FirstBad(section, cast) < |section|)
  {
    hide ExtractLevel, Loop;
    LoopError(f, section, true, cast);
    var i := FindKey(section, DEFAULT_KEY);
    if i == |section| {
      LoopError(SetDefaultLevel(f, INFO), section, false, cast);
    } else if ExtractLevel(section[i], cast).Success? {
      LoopError(SetDefaultLevel(f, ExtractLevel(section[i], cast).value), section, false, cast);
    }
  }

  function ErrorAt(section: seq<Item>, i: nat, cast: string -> Option<nat>): Option<Error> {
    if i < |section| && ExtractLevel(section[i], cast).Failure? then Some(ExtractLevel(section[i], cast).error)
    else None
  }

  /** Which error it is: the dry run reports the first bad item, the real run reports the
      default level if that is bad, whatever stands in front of it, else the first bad item. */
  lemma WhichError(f: Factory, section: seq<Item>, cast: string -> Option<nat>)
    ensures var d, b := FindKey(section, DEFAULT_KEY), FirstBad(section, cast);
            && OnConfig(f, section, true, cast).error == ErrorAt(section, b, cast)
            && OnConfig(f, section, false, cast).error
               == (if ErrorAt(section, d, cast).Some? then ErrorAt(section, d, cast) else ErrorAt(section, b, cast))
  {
    hide ExtractLevel, Loop;
    LoopError(f, section, true, cast);
    var d := FindKey(section, DEFAULT_KEY);
    if d == |section| {
      LoopError(SetDefaultLevel(f, INFO), section, false, cast);
    } else if ExtractLevel(section[d], cast).Success? {
      LoopError(SetDefaultLevel(f, ExtractLevel(section[d], cast).value), section, false, cast);
    }
  }

  /** So the two runs can report different errors. */
  lemma DifferentErrors(f: Factory, cast: string -> Option<nat>)
    ensures var section := [Item("Forwarder", ""), Item(DEFAULT_KEY, "")];
            && OnConfig(f, section, true, cast).error == Some(NoLevel("Forwarder"))
            && OnConfig(f, section, false, cast).error == Some(NoLevel(DEFAULT_KEY))
  {
    var section := [Item("Forwarder", ""), Item(DEFAULT_KEY, "")];
    assert section[0].key != DEFAULT_KEY && section[1..][0].key == DEFAULT_KEY;
  }

  // ---------------------------------------------------------------------
  // What a real run leaves
  // ---------------------------------------------------------------------

  /** The level of the last item for a module, or the default. */
  function LastLevel(section: seq<Item>, name: string, cast: string -> Option<nat>, otherwise: LogLevel): LogLevel
    decreases |section|
  {
    if section == [] then otherwise
    else
      var last := section[|section| - 1];
      if last.key == name && name != DEFAULT_KEY && ExtractLevel(last, cast).Success? then ExtractLevel(last, cast).value
      else LastLevel(section[..|section| - 1], name, cast, otherwise)
  }

  lemma {:induction false} LastLevelCons(item: Item, rest: seq<Item>, name: string, cast: string -> Option<nat>, otherwise: LogLevel)
    ensures LastLevel([item] + rest, name, cast, otherwise)
            == LastLevel(rest, name, cast, LastLevel([item], name, cast, otherwise))
    decreases |rest|
  {
    hide ExtractLevel;
    var s := [item] + rest;
    if rest == [] {
      assert s == [item];
    } else {
      assert s[..|s| - 1] == [item] + rest[..|rest| - 1];
      LastLevelCons(item, rest[..|rest| - 1], name, cast, otherwise);
    }
  }

  lemma LastLevelOne(item: Item, name: string, cast: string -> Option<nat>, otherwise: LogLevel)
    ensures LastLevel([item], name, cast, otherwise) ==
              if item.key == name && name != DEFAULT_KEY && ExtractLevel(item, cast).Success?
              then ExtractLevel(item, cast).value else otherwise
  {
    assert [item][..0] == [];
  }

  lemma {:induction false} LoopLevels(f: Factory, section: seq<Item>, cast: string -> Option<nat>, name: string)
    requires FirstBad(section, cast) == |section| && name in f.loggers
    ensures var r := Loop(f, section, false, cast).factory;
            && r.defaultLevel == f.defaultLevel && name in r.loggers
            && r.loggers[name] == LastLevel(section, name, cast, f.loggers[name])
    decreases |section|
  {
    if section != [] {
      var item := section[0];
      var level := ExtractLevel(item, cast).value;
      hide ExtractLevel, LastLevel;
      LoopLevels(Configure(f, item, level), section[1..], cast, name);
      LastLevelCons(item, section[1..], name, cast, f.loggers[name]);
      LastLevelOne(item, name, cast, f.loggers[name]);
      assert section == [item] + section[1..];
    } else {
      hide ExtractLevel;
    }
  }

  /** After a real run without error, every logger has the level of the last item that names
      it, else the configured default, else INFO. */
  lemma ConfiguredLevels(f: Factory, section: seq<Item>, cast: string -> Option<nat>, name: string)
    requires FirstBad(section, cast) == |section| && name in f.loggers
    ensures var d := FindKey(section, DEFAULT_KEY);
            var level := if d == |section| then INFO else ExtractLevel(section[d], cast).value;
            var r := OnConfig(f, section, false, cast).factory;
            r.defaultLevel == level && name in r.loggers && r.loggers[name] == LastLevel(section, name, cast, level)
  {
    hide ExtractLevel, Loop, LastLevel;
    var d := FindKey(section, DEFAULT_KEY);
    var level := if d == |section| then INFO else ExtractLevel(section[d], cast).value;
    LoopLevels(SetDefaultLevel(f, level), section, cast, name);
  }

  // ---------------------------------------------------------------------
  // The factory object
  // ---------------------------------------------------------------------

  class LoggerFactoryImpl {
    var loggers: map<string, LogLevel>
    var defaultLevel: LogLevel

    function State(): Factory
      reads this
    {
      Factory(loggers, defaultLevel)
    }

    constructor ()
      ensures State() == Factory(map[], INFO)
    {
      loggers, defaultLevel := map[], INFO;
    }

    method SetDefault(level: LogLevel)
      modifies this
      ensures State() == SetDefaultLevel(old(State()), level)
      ensures defaultLevel == level && loggers.Keys == old(loggers.Keys) && forall m <- loggers :: loggers[m] == level
    {
      defaultLevel := level;
      var todo := loggers.Keys;
      while todo != {}
        invariant todo <= loggers.Keys && loggers.Keys == old(loggers.Keys) && defaultLevel == level
        invariant forall m :: m in loggers && m !in todo ==> loggers[m] == level
        decreases todo
      {
        var m :| m in todo;
        loggers := loggers[m := level];
        todo := todo - {m};
      }
    }

    method Create(name: string) returns (level: LogLevel)
      modifies this
      ensures State() == CreateLogger(old(State()), name)
      ensures level == if name in old(loggers) then old(loggers)[name] else old(defaultLevel)
      ensures loggers == old(loggers)[name := level] && defaultLevel == old(defaultLevel)
    {
      if name !in loggers {
        loggers := loggers[name := defaultLevel];
      }
      level := loggers[name];
    }

    method OnConfigSection(section: seq<Item>, isDryRun: bool, cast: string -> Option<nat>) returns (error: Option<Error>)
      modifies this
      ensures Pass(State(), error) == OnConfig(old(State()), section, isDryRun, cast)
    {
      hide ExtractLevel, SetDefaultLevel;
      if !isDryRun {
        var item := FindKey(section, DEFAULT_KEY);
        if item != |section| {
          var level := ExtractLevel(section[item], cast);
          if level.Failure? {
            return Some(level.error);
          }
          SetDefault(level.value);
        } else {
          SetDefault(INFO);
        }
      }
      ghost var before := State();
      assert section[0..] == section;
      for k := 0 to |section|
        invariant Loop(State(), section[k..], isDryRun, cast) == Loop(before, section, isDryRun, cast)
      {
        assert section[k..][1..] == section[k + 1..];
        var level := ExtractLevel(section[k], cast);
        if level.Failure? {
          return Some(level.error);
        }
        if section[k].key != DEFAULT_KEY && section[k].key in loggers && !isDryRun {
          loggers := loggers[section[k].key := level.value];
        }
      }
      return None;
    }
  }
}
