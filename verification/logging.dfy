/** The ndn-cxx logging facility: levels are kept per module name and cached in every
    registered logger. */
module Logging {
  import opened Tlv

  datatype LogLevel = FATAL | NONE | ERROR | WARN | INFO | DEBUG | TRACE | ALL

  const INITIAL_DEFAULT_LEVEL := NONE
  const ANY := "*"

  // ---------------------------------------------------------------------
  // The rule
  // ---------------------------------------------------------------------

  type Levels = map<string, LogLevel>

  /** A module's own entry, else the default entry, else NONE. */
  function Rule(enabled: Levels, name: string): LogLevel {
    if name in enabled then enabled[name]
    else if ANY in enabled then enabled[ANY]
    else INITIAL_DEFAULT_LEVEL
  }

  datatype Assignment = Assignment(name: string, level: LogLevel)

  /** Setting the default forgets every individual setting. */
  function Assign(enabled: Levels, a: Assignment): Levels {
    if a.name == ANY then map[ANY := a.level] else enabled[a.name := a.level]
  }

  function AssignAll(enabled: Levels, assignments: seq<Assignment>): Levels
    decreases |assignments|
  {
    if assignments == [] then enabled else AssignAll(Assign(enabled, assignments[0]), assignments[1..])
  }

  /** The last assignment that names the module or is for all modules. */
  function LastFor(assignments: seq<Assignment>, name: string): Option<LogLevel>
    decreases |assignments|
  {
    if assignments == [] then None
    else
      var last := assignments[|assignments| - 1];
      if last.name == name || last.name == ANY then Some(last.level)
      else LastFor(assignments[..|assignments| - 1], name)
  }

  lemma {:induction false} AssignAllLast(enabled: Levels, assignments: seq<Assignment>)
    requires assignments != []
    ensures var n := |assignments| - 1;
            AssignAll(enabled, assignments) == Assign(AssignAll(enabled, assignments[..n]), assignments[n])
    decreases |assignments|
  {
    var n := |assignments| - 1;
    if n > 0 {
      AssignAllLast(Assign(enabled, assignments[0]), assignments[1..]);
      assert assignments[1..][..n - 1] == assignments[..n][1..];
      assert assignments[1..][n - 1] == assignments[n];
    } else {
      assert assignments[1..] == [] && assignments[..0] == [];
    }
  }

  /** After any assignments a module's level is its last one after the last "*", else that of
      the last "*", else what it was. */
  lemma {:induction false} LastAssignmentWins(enabled: Levels, assignments: seq<Assignment>, name: string)
    ensures Rule(AssignAll(enabled, assignments), name) ==
              if LastFor(assignments, name).Some? then LastFor(assignments, name).value else Rule(enabled, name)
    decreases |assignments|
  {
    if assignments != [] {
      AssignAllLast(enabled, assignments);
      LastAssignmentWins(enabled, assignments[..|assignments| - 1], name);
    }
  }

  // ---------------------------------------------------------------------
  // Config strings
  // ---------------------------------------------------------------------

  function IndexOf(s: string, c: char): (i: nat)
    ensures i <= |s|
    ensures i < |s| ==> s[i] == c
    ensures forall k :: 0 <= k < i ==> s[k] != c
  {
    if s == [] || s[0] == c then 0 else 1 + IndexOf(s[1..], c)
  }

  /** The pieces that std::getline yields: a trailing delimiter adds no empty piece. */
  function Pieces(s: string): seq<string>
    decreases |s|
  {
    if s == [] then []
    else
      var i := IndexOf(s, ':');
      if i == |s| then [s] else [s[..i]] + Pieces(s[i + 1..])
  }

  function ParseLogLevel(s: string): Option<LogLevel> {
    if s == "FATAL" then Some(FATAL)
    else if s == "NONE" then Some(NONE)
    else if s == "ERROR" then Some(ERROR)
    else if s == "WARN" then Some(WARN)
    else if s == "INFO" then Some(INFO)
    else if s == "DEBUG" then Some(DEBUG)
    else if s == "TRACE" then Some(TRACE)
    else if s == "ALL" then Some(ALL)
    else None
  }

  function ParseAssignment(piece: string): Option<Assignment> {
    var ind := IndexOf(piece, '=');
    if ind == |piece| then None
    else
      var level := ParseLogLevel(piece[ind + 1..]);
      if level.None? then None else Some(Assignment(piece[..ind], level.value))
  }

  /** The assignments before the first malformed piece. */
  function Parsed(pieces: seq<string>): seq<Assignment> {
    if pieces == [] then []
    else
      var a := ParseAssignment(pieces[0]);
      if a.None? then [] else [a.value] + Parsed(pieces[1..])
  }

  predicate WellFormed(config: string) {
    forall p :: p in Pieces(config) ==> ParseAssignment(p).Some?
  }

  lemma {:induction false} ParsedAll(pieces: seq<string>)
    ensures |Parsed(pieces)| == |pieces| <==> forall p :: p in pieces ==> ParseAssignment(p).Some?
    ensures |Parsed(pieces)| <= |pieces|
    decreases |pieces|
  {
    hide ParseAssignment;
    if pieces != [] {
      ParsedAll(pieces[1..]);
      assert pieces == [pieces[0]] + pieces[1..];
    }
  }

  /** What follows the first piece of a config string. */
  function Later(s: string, i: nat): string
    requires i <= |s|
  {
    if i == |s| then [] else s[i + 1..]
  }

  lemma FirstPiece(s: string, i: nat)
    requires s != [] && i == IndexOf(s, ':')
    ensures Pieces(s) == [s[..i]] + Pieces(Later(s, i))
  {
    hide IndexOf;
    if i == |s| {
      assert s[..i] == s;
    }
  }

  lemma NextPiece(s: string, i: nat)
    requires s != [] && i == IndexOf(s, ':')
    ensures WellFormed(s) <==> ParseAssignment(s[..i]).Some? && WellFormed(Later(s, i))
  {
    hide ParseAssignment, Pieces;
    FirstPiece(s, i);
    var later := Pieces(Later(s, i));
    assert forall p :: p in Pieces(s) <==> p == s[..i] || p in later;
  }

  lemma NextAssignment(s: string, i: nat, levels: Levels)
    requires s != [] && i == IndexOf(s, ':')
    ensures var a := ParseAssignment(s[..i]);
            AssignAll(levels, Parsed(Pieces(s))) ==
              if a.None? then levels else AssignAll(Assign(levels, a.value), Parsed(Pieces(Later(s, i))))
  {
    hide ParseAssignment, Pieces, Assign;
    FirstPiece(s, i);
    var a, later := ParseAssignment(s[..i]), Pieces(Later(s, i));
    assert ([s[..i]] + later)[1..] == later;
    if a.Some? {
      assert Parsed(Pieces(s)) == [a.value] + Parsed(later);
      assert ([a.value] + Parsed(later))[1..] == Parsed(later);
    }
  }

  lemma NoPieces(levels: Levels)
    ensures WellFormed([]) && AssignAll(levels, Parsed(Pieces([]))) == levels
  {
  }

  // ---------------------------------------------------------------------
  // Writing a config string
  // ---------------------------------------------------------------------

  function LevelText(level: LogLevel): string {
    match level
    case FATAL => "FATAL"
    case NONE => "NONE"
    case ERROR => "ERROR"
    case WARN => "WARN"
    case INFO => "INFO"
    case DEBUG => "DEBUG"
    case TRACE => "TRACE"
    case ALL => "ALL"
  }

  /** A level is read from its name and from nothing else. */
  lemma LevelNames(s: string, level: LogLevel)
    ensures ParseLogLevel(s) == Some(level) <==> s == LevelText(level)
  {
  }

  function PieceText(a: Assignment): string {
    a.name + "=" + LevelText(a.level)
  }

  /** "A=INFO:B=WARN". */
  function ConfigText(assignments: seq<Assignment>): string {
    if assignments == [] then ""
    else if |assignments| == 1 then PieceText(assignments[0])
    else PieceText(assignments[0]) + ":" + ConfigText(assignments[1..])
  }

  predicate Writable(a: Assignment) {
    ':' !in a.name && '=' !in a.name
  }

  lemma IndexBehind(front: string, c: char, back: string)
    requires c !in front
    ensures IndexOf(front + [c] + back, c) == |front|
    ensures c !in back ==> IndexOf(front + back, c) == |front + back|
  {
    var s := front + [c] + back;
    assert s[|front|] == c;
    assert forall k :: 0 <= k < |front| ==> s[k] == front[k] && front[k] != c;
    assert c !in back ==> c !in front + back;
  }

  lemma LevelPlain(level: LogLevel)
    ensures ':' !in LevelText(level)
  {
  }

  lemma PieceRoundTrip(a: Assignment)
    requires Writable(a)
    ensures ParseAssignment(PieceText(a)) == Some(a)
    ensures ':' !in PieceText(a)
  {
    LevelPlain(a.level);
    IndexBehind(a.name, '=', LevelText(a.level));
    LevelNames(LevelText(a.level), a.level);
    hide IndexOf, ParseLogLevel, LevelText;
    var piece := PieceText(a);
    assert "=" == ['='];
    assert piece == a.name + ['='] + LevelText(a.level);
    assert piece[..|a.name|] == a.name && piece[|a.name| + 1..] == LevelText(a.level);
  }

  /** The pieces of a piece without a colon, and of one that is followed by a colon. */
  lemma FirstPieceIs(front: string, back: string)
    requires front != [] && ':' !in front
    ensures Pieces(front) == [front]
    ensures Pieces(front + ":" + back) == [front] + Pieces(back)
  {
    hide IndexOf;
    assert ":" == [':'];
    IndexBehind(front, ':', back);
    IndexBehind(front, ':', []);
    assert front + [] == front;
    var s := front + [':'] + back;
    assert s == front + ":" + back;
    assert s[..|front|] == front && s[|front| + 1..] == back;
  }

  /** A config string that was written from assignments gives these back, in order. */
  lemma {:induction false} ConfigRoundTrip(assignments: seq<Assignment>)
    requires forall a <- assignments :: Writable(a)
    ensures WellFormed(ConfigText(assignments))
    ensures Parsed(Pieces(ConfigText(assignments))) == assignments
    decreases |assignments|
  {
    hide ParseAssignment, Pieces;
    if assignments == [] {
      NoPieces(map[]);
      assert Pieces([]) == [] by { NothingToRead(); }
    } else {
      var first, rest := assignments[0], assignments[1..];
      assert first in assignments;
      PieceRoundTrip(first);
      FirstPieceIs(PieceText(first), ConfigText(rest));
      ConfigRoundTrip(rest);
      assert assignments == [first] + rest;
      var later := if rest == [] then [] else Pieces(ConfigText(rest));
      assert Pieces(ConfigText(assignments)) == [PieceText(first)] + later;
      assert ([PieceText(first)] + later)[1..] == later;
    }
  }

  lemma NothingToRead()
    ensures Pieces([]) == []
  {
  }

  // ---------------------------------------------------------------------
  // Loggers
  // ---------------------------------------------------------------------

  class Logger {
    const moduleName: string
    var level: LogLevel

    constructor (name: string)
      ensures moduleName == name && level == NONE
    {
      moduleName, level := name, NONE;
    }
  }

  class LoggingFacility {
    var enabledLevel: Levels
    var loggers: set<Logger>

    /** Cached levels agree with the rule. */
    ghost predicate Valid()
      reads this, loggers
    {
      forall l :: l in loggers ==> l.level == Rule(enabledLevel, l.moduleName)
    }

    constructor ()
      ensures Valid() && loggers == {} && enabledLevel == map[]
    {
      enabledLevel, loggers := map[], {};
    }

    method AddLoggerImpl(logger: Logger)
      requires Valid()
      modifies this, logger
      ensures Valid() && loggers == old(loggers) + {logger} && enabledLevel == old(enabledLevel)
    {
      var name := logger.moduleName;
      loggers := loggers + {logger};
      var key := if name in enabledLevel then name else ANY;
      logger.level := if key in enabledLevel then enabledLevel[key] else INITIAL_DEFAULT_LEVEL;
    }

    /** Set the level of the loggers in chosen, one after the other. */
    method SetLevels(chosen: set<Logger>, level: LogLevel)
      requires chosen <= loggers
      modifies chosen
      ensures forall l :: l in chosen ==> l.level == level
      ensures forall l :: l in loggers && l !in chosen ==> l.level == old(l.level)
    {
      var todo := chosen;
      while todo != {}
        invariant todo <= chosen
        invariant forall l :: l in chosen && l !in todo ==> l.level == level
        invariant forall l :: l in loggers && l !in chosen ==> l.level == old(l.level)
        decreases todo
      {
        var l :| l in todo;
        l.level := level;
        todo := todo - {l};
      }
    }

    method SetDefaultLevel(level: LogLevel)
      requires Valid()
      modifies this, loggers
      ensures Valid() && loggers == old(loggers)
      ensures enabledLevel == Assign(old(enabledLevel), Assignment(ANY, level))
    {
      enabledLevel := map[];
      enabledLevel := enabledLevel[ANY := level];
      SetLevels(loggers, level);
    }

    method SetLevelImpl(moduleName: string, level: LogLevel)
      requires Valid()
      modifies this, loggers
      ensures Valid() && loggers == old(loggers)
      ensures enabledLevel == Assign(old(enabledLevel), Assignment(moduleName, level))
    {
      if moduleName == ANY {
        SetDefaultLevel(level);
        return;
      }
      enabledLevel := enabledLevel[moduleName := level];
      var range := set l | l in loggers && l.moduleName == moduleName;
      SetLevels(range, level);
    }

    /** setLevelImpl on a config string: assignments take effect one by one, and a malformed
        piece throws after those in front of it have taken effect. */
    method SetLevelConfig(config: string) returns (thrown: bool)
      requires Valid()
      modifies this, loggers
      ensures Valid() && loggers == old(loggers)
      ensures thrown <==> !WellFormed(config)
      ensures enabledLevel == AssignAll(old(enabledLevel), Parsed(Pieces(config)))
      ensures forall l :: l in loggers ==>
                var last := LastFor(Parsed(Pieces(config)), l.moduleName);
                l.level == if last.Some? then last.value else Rule(old(enabledLevel), l.moduleName)
    {
      forall name: string {
        LastAssignmentWins(enabledLevel, Parsed(Pieces(config)), name);
      }
      hide ParseAssignment, Assign, AssignAll, Parsed, Pieces, WellFormed, Rule, LastFor;
      var rest := config;
      ghost var all, before := Parsed(Pieces(config)), enabledLevel;
      while rest != []
        invariant Valid() && loggers == old(loggers)
        invariant WellFormed(config) <==> WellFormed(rest)
        invariant AssignAll(enabledLevel, Parsed(Pieces(rest))) == AssignAll(before, all)
        decreases |rest|
      {
        var i := IndexOf(rest, ':');
        var piece := rest[..i];
        NextPiece(rest, i);
        NextAssignment(rest, i, enabledLevel);
        rest := if i == |rest| then [] else rest[i + 1..];
        var a := ParseAssignment(piece);
        if a.None? {
          return true;
        }
        SetLevelImpl(a.value.name, a.value.level);
      }
      NoPieces(enabledLevel);
      return false;
    }
  }
}
