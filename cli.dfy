/** getSummary.js: the classification of the command line (lines 140-215)
    and its own `readPipeDelimited(file, type, callback)` (lines 50-127),
    which stores the parsed lines in the collection named by `type`. */
module Cli {
  import opened Outcomes
  import opened Text
  import Parser

  /** The JavaScript values the dispatch inspects. */
  datatype Value = Undefined | Str(s: string) | Bool(b: bool)

  /** `typeof`: the name of the value's type, which is `undefined` exactly
      for the undefined value and is never the empty string. */
  function TypeOf(v: Value): (t: string)
    ensures t == "undefined" <==> v.Undefined?
    ensures t != ""
  {
    match v
    case Undefined => "undefined"
    case Str(_) => "string"
    case Bool(_) => "boolean"
  }

  /** A string is truthy unless it is empty. */
  predicate Truthy(s: string)
  {
    s != ""
  }

  /** Whatever `typeof` returns is truthy, so the test
      `if (typeof (v !== 'undefined'))` takes its branch for every `v`. */
  lemma TypeOfTruthy(v: Value)
    ensures Truthy(TypeOf(v))
    ensures Truthy(TypeOf(Bool(v != Str("undefined"))))
  {
  }

  /** `process.argv[i]`: a string within the list, `undefined` beyond it. */
  function ArgValue(args: seq<string>, i: nat): (v: Value)
    ensures v == Undefined <==> i >= |args|
    ensures i < |args| ==> v == Str(args[i])
  {
    if i < |args| then Str(args[i]) else Undefined
  }

  /** `process.argv[i]` as an optional file name. */
  function Arg(args: seq<string>, i: nat): (a: Option<string>)
    ensures a.None? <==> i >= |args|
    ensures i < |args| ==> a == Some(args[i])
  {
    if i < |args| then Some(args[i]) else None
  }

  /** Where the dispatch goes. `Both` carries the active-users file as it is
      passed on, which may be `undefined`. */
  datatype Command =
    | Help                                                // prints the help text, exit 0
    | SignupsOnly(signupsFile: string)                    // reads the signups file
    | Both(signupsFile: string, activesFile: Option<string>) // reads both files
    | MissingActiveFile                                   // lines 187-188, exit 1
    | InvalidArgs                                         // lines 192-193, exit 1
    | NoInput                                             // line 211, exit 1

  /** The `case` labels of lines 141-142. */
  predicate IsHelp(v: Value)
  {
    v == Str("--help") || v == Str("-h")
  }

  /** The test of line 165. */
  predicate IsActiveFlag(v: Value)
  {
    v == Str("--active") || v == Str("-a")
  }

  /** The dispatch as written. The test of line 166 is
      `typeof(args[4] !== 'undefined')`, the type of a boolean, which is the
      truthy string "boolean"; so a flag without a file name still reads both
      files, passing `undefined` as the second. */
  function Dispatch(args: seq<string>): (c: Command)
    ensures |args| > 2 && (args[2] == "--help" || args[2] == "-h") ==> c == Help
    ensures (|args| > 3 && args[2] != "--help" && args[2] != "-h" &&
             args[3] != "--active" && args[3] != "-a") ==> c == InvalidArgs
    ensures (|args| > 3 && args[2] != "--help" && args[2] != "-h" &&
             (args[3] == "--active" || args[3] == "-a")) ==> c == Both(args[2], Arg(args, 4))
    ensures |args| == 3 && args[2] != "--help" && args[2] != "-h" ==> c == SignupsOnly(args[2])
    ensures |args| < 3 ==> c == NoInput
    ensures c != MissingActiveFile
  {
    var a2, a3 := ArgValue(args, 2), ArgValue(args, 3);
    if IsHelp(a2) then Help
    else if TypeOf(a3) != "undefined" then
      if IsActiveFlag(a3) then
        if Truthy(TypeOf(Bool(ArgValue(args, 4) != Str("undefined")))) then Both(args[2], Arg(args, 4))
        else MissingActiveFile
      else InvalidArgs
    else if TypeOf(a2) != "undefined" then SignupsOnly(args[2])
    else NoInput
  }

  /** The dispatch as evidently intended: line 166 tests
      `typeof(args[4]) !== 'undefined'`. */
  function DispatchIntended(args: seq<string>): (c: Command)
    ensures (|args| == 4 && args[2] != "--help" && args[2] != "-h" &&
             (args[3] == "--active" || args[3] == "-a")) ==> c == MissingActiveFile
    ensures c.Both? ==> |args| >= 5 && c.activesFile == Some(args[4])
  {
    var a2, a3 := ArgValue(args, 2), ArgValue(args, 3);
    if IsHelp(a2) then Help
    else if TypeOf(a3) != "undefined" then
      if IsActiveFlag(a3) then
        if TypeOf(ArgValue(args, 4)) != "undefined" then Both(args[2], Arg(args, 4))
        else MissingActiveFile
      else InvalidArgs
    else if TypeOf(a2) != "undefined" then SignupsOnly(args[2])
    else NoInput
  }

  /** The two dispatches differ exactly on a flag without a file name. */
  lemma DispatchDiffers(args: seq<string>)
    ensures Dispatch(args) != DispatchIntended(args) <==>
              |args| == 4 && args[2] != "--help" && args[2] != "-h" &&
              (args[3] == "--active" || args[3] == "-a")
  {
  }

  /** `node getSummary.js signups.txt -a`: as written the active-users read
      gets `undefined`; the intended dispatch reports the missing file name. */
  lemma FlagWithoutFile(args: seq<string>)
    requires args == ["node", "getSummary.js", "signups.txt", "-a"]
    ensures Dispatch(args) == Both("signups.txt", None)
    ensures DispatchIntended(args) == MissingActiveFile
  {
  }

  /** The exit code a command ends with before any file is read, if any. */
  function ImmediateExit(c: Command): (code: Option<int>)
    ensures code.None? <==> c.SignupsOnly? || c.Both?
    ensures c == Help ==> code == Some(0)
  {
    match c
    case Help => Some(0)
    case MissingActiveFile => Some(1)
    case InvalidArgs => Some(1)
    case NoInput => Some(1)
    case SignupsOnly(_) => None
    case Both(_, _) => None
  }

  /** With the corrected dispatch, a command line that goes on to read files
      names every file it reads, and every other command line exits at once
      (with 0 only for help). */
  lemma ExitOrRead(args: seq<string>)
    ensures var c := DispatchIntended(args);
            (ImmediateExit(c).None? ==>
               3 <= |args| && c.signupsFile == args[2] &&
               (c.Both? ==> |args| >= 5 && c.activesFile == Some(args[4]))) &&
            (ImmediateExit(c) == Some(0) <==> |args| > 2 && (args[2] == "--help" || args[2] == "-h"))
  {
  }

  /** The collections `readPipeDelimited` stores into. */
  datatype Collection = Signups | Actives

  /** The records one call hands to the store: the collection, the entities
      passed to `save()` in file order, and the number of dropped lines (which
      is only logged). `save()` takes no callback, so whether a save succeeds,
      or finishes before the process exits, is not observed. */
  datatype Stored = Stored(collection: Collection, toSave: seq<Parser.Entity>, numDrops: nat)

  /** `readPipeDelimited(file, type, callback)` of getSummary.js, given
      whether clearing the collection succeeds (`clearOk`) and the file's
      contents (`None` when it cannot be read, on which `handleErr` exits
      with status 1). The loop over the lines is the one of helpers.js,
      `Parser.ReadLines`; here each kept line is passed to `save()` instead of pushed. */
  method ReadTyped(kind: string, clearOk: bool, data: Option<string>) returns (r: Callback<Stored>)
    ensures kind != "actives" && kind != "signups" ==> r == Err(UnknownType)
    ensures (kind == "actives" || kind == "signups") && !clearOk ==> r == Err(StoreError)
    ensures (kind == "actives" || kind == "signups") && clearOk && data.None? ==> r == ProcessExit(1)
    ensures (kind == "actives" || kind == "signups") && clearOk && data.Some? && '\n' !in data.value ==>
              r == NeverCalled
    ensures (kind == "actives" || kind == "signups") && clearOk && data.Some? && '\n' in data.value ==>
              var lineList := Split(data.value, '\n');
              r == Ok(Stored(if kind == "actives" then Actives else Signups,
                             Parser.Entities(lineList[1..]), Parser.Drops(lineList[1..])))
    ensures r.Ok? ==> |r.value.toSave| + r.value.numDrops == |Split(data.value, '\n')| - 1
  {
    var collection: Collection;
    if kind == "actives" {
      collection := Actives;
    } else if kind == "signups" {
      collection := Signups;
    } else {
      return Err(UnknownType);
    }
    if !clearOk {
      return Err(StoreError);
    }
    if data.None? {
      return ProcessExit(1);
    }
    var lineList := Split(data.value, '\n');
    var toSave, numDrops := Parser.ReadLines(lineList);
    if |lineList| >= 2 {
      r := Ok(Stored(collection, toSave, numDrops));
    } else {
      r := NeverCalled;
    }
  }
}
