/** The command-line parser (src/Siganberg.SqlGen/ArgumentParser.cs). Tokens are read in pairs
    from index 1 on (the first token is skipped); the key has every `-` removed before it is
    matched against the `switch` labels, and a value is bracket-stripped and split
    on `.` into database, schema and name. */
module ArgumentParser {
  import opened DotNet

  /** `Command`: the de-dashed key and the three segments of its value. */
  datatype Command = Command(kind: string, dbName: string, schema: string, name: string)

  /** The contents of a `CommandList`. */
  datatype Settings = Settings(
    server: Option<string>,
    userName: Option<string>,
    password: Option<string>,
    targetPath: Option<string>,
    commands: seq<Command>)

  const EmptySettings := Settings(None, None, None, None, [])

  /** `CommandList`, which `Parse` fills in place. */
  class CommandList {
    var server: Option<string>
    var userName: Option<string>
    var password: Option<string>
    var targetPath: Option<string>
    var commands: seq<Command>

    function Value(): Settings
      reads this
    {
      Settings(server, userName, password, targetPath, commands)
    }

    /** `new CommandList()`: an empty command list, every setting null. */
    constructor ()
      ensures Value() == EmptySettings
    {
      server, userName, password, targetPath := None, None, None, None;
      commands := [];
    }
  }

  /** The `CommandList` property a `switch` case assigns. */
  datatype Setting = ServerSetting | UserNameSetting | PasswordSetting | TargetPathSetting

  /** The `case` labels of the `switch`, for server, username, password and targetPath. */
  const WrittenLabels: seq<string> := ["--server", "--username", "--password", "--targetPath"]

  /** Labels that a de-dashed key can match (see the finding in the README). */
  const IntendedLabels: seq<string> := ["server", "username", "password", "targetPath"]

  function SwitchCase(labels: seq<string>, command: string): Option<Setting>
    requires |labels| == 4
  {
    if command == labels[0] then Some(ServerSetting)
    else if command == labels[1] then Some(UserNameSetting)
    else if command == labels[2] then Some(PasswordSetting)
    else if command == labels[3] then Some(TargetPathSetting)
    else None
  }

  function Assign(l: Settings, setting: Setting, value: string): Settings {
    match setting
    case ServerSetting => l.(server := Some(value))
    case UserNameSetting => l.(userName := Some(value))
    case PasswordSetting => l.(password := Some(value))
    case TargetPathSetting => l.(targetPath := Some(value))
  }

  /** What `Parse` does: returns null, throws, or returns a command list. */
  datatype ParseResult<L> = Null | Raised(exception: Exception) | Returned(list: L)

  /** `args[i].Replace("-", "")`. */
  function DeDash(token: string): string {
    RemoveChar(token, '-')
  }

  function MissingValue(command: string): Exception {
    ArgumentException("Missing value for command " + command)
  }

  /** The message interpolates the split array, which prints as its type name. */
  const InvalidValue: Exception :=
    ArgumentException("Invalid value System.String[]. Format should be {dbName}.{schema}.{name}")

  /** The loop of `Parse` from index `i` on, with the command list so far in `acc`. */
  function ParseFrom(labels: seq<string>, args: seq<string>, i: nat, acc: Settings): (r: ParseResult<Settings>)
    requires |labels| == 4
    ensures !r.Null?
    decreases |args| - i
  {
    if i >= |args| then Returned(acc)
    else
      var command := DeDash(args[i]);
      if i + 1 == |args| then Raised(MissingValue(command))
      else match SwitchCase(labels, command)
        case Some(setting) => ParseFrom(labels, args, i + 2, Assign(acc, setting, args[i + 1]))
        case None =>
          var value := Split(StripBracket(args[i + 1]), '.');
          if |value| != 3 then Raised(InvalidValue)
          else ParseFrom(labels, args, i + 2, acc.(commands := acc.commands + [Command(command, value[0], value[1], value[2])]))
  }

  function ParseWith(labels: seq<string>, args: seq<string>): (r: ParseResult<Settings>)
    requires |labels| == 4
    ensures r.Null? <==> |args| == 1
  {
    if |args| == 1 then Null else ParseFrom(labels, args, 1, EmptySettings)
  }

  /** `Parse` as written: null for a lone token, and since no key reaches a settings case,
      a returned list never has a setting. */
  function ParseSpec(args: seq<string>): (r: ParseResult<Settings>)
    ensures r.Null? <==> |args| == 1
    ensures r.Returned? ==> r.list.server.None? && r.list.userName.None? && r.list.password.None? && r.list.targetPath.None?
  {
    var r := ParseWith(WrittenLabels, args);
    if r.Returned? then
      ParseFromReturned(args, 0, EmptySettings, r.list);
      r
    else r
  }

  /** `Parse` with the labels the de-dashed keys can reach. */
  function ParseIntended(args: seq<string>): ParseResult<Settings> {
    ParseWith(IntendedLabels, args)
  }

  /** `ArgumentParser.Parse`. */
  method Parse(args: seq<string>) returns (r: ParseResult<CommandList>)
    ensures r.Null? <==> ParseSpec(args).Null?
    ensures r.Raised? <==> ParseSpec(args).Raised?
    ensures r.Raised? ==> ParseSpec(args) == Raised(r.exception)
    ensures r.Returned? ==> ParseSpec(args) == Returned(r.list.Value())
  {
    if |args| == 1 {
      return Null;
    }
    var commandList := new CommandList();
    var i := 1;
    while i < |args|
      invariant ParseFrom(WrittenLabels, args, i, commandList.Value()) == ParseSpec(args)
      decreases |args| - i
    {
      var command := DeDash(args[i]);
      if i + 1 == |args| {
        return Raised(MissingValue(command));
      }
      match SwitchCase(WrittenLabels, command) {
        case Some(ServerSetting) =>
          commandList.server := Some(args[i + 1]);
        case Some(UserNameSetting) =>
          commandList.userName := Some(args[i + 1]);
        case Some(PasswordSetting) =>
          commandList.password := Some(args[i + 1]);
        case Some(TargetPathSetting) =>
          commandList.targetPath := Some(args[i + 1]);
        case None =>
          var value := Split(StripBracket(args[i + 1]), '.');
          if |value| != 3 {
            return Raised(InvalidValue);
          }
          commandList.commands := commandList.commands + [Command(command, value[0], value[1], value[2])];
      }
      i := i + 2;
    }
    return Returned(commandList);
  }

  // ---------------------------------------------------------------------------
  // Properties of the parser as written

  /** Pair `k` is the tokens `args[2k+1]` (key) and `args[2k+2]` (value). */
  predicate ValidPair(args: seq<string>, k: nat)
    requires 2 * k + 2 < |args|
  {
    |Split(StripBracket(args[2 * k + 2]), '.')| == 3
  }

  /** `c` is the command pair `k` produces. */
  predicate CommandOfPair(args: seq<string>, k: nat, c: Command)
    requires 2 * k + 2 < |args|
  {
    && c.kind == DeDash(args[2 * k + 1])
    && Split(StripBracket(args[2 * k + 2]), '.') == [c.dbName, c.schema, c.name]
  }

  /** A de-dashed key never equals a label that starts with `-`: the settings cases are dead. */
  lemma FlagCasesUnreachable(token: string)
    ensures SwitchCase(WrittenLabels, DeDash(token)) == None
  {
    RemoveCharMembers(token, '-', '-');
    forall k | 0 <= k < 4 ensures WrittenLabels[k] != DeDash(token) {
      assert WrittenLabels[k][0] == '-';
    }
  }

  /** The first token, which the loop skips (`i` starts at 1), is never looked at. */
  lemma {:induction false} ParseFromIgnoresFirstToken(a: seq<string>, b: seq<string>, i: nat, acc: Settings)
    requires 1 <= i && |a| == |b| && 1 <= |a| && a[1..] == b[1..]
    ensures ParseFrom(WrittenLabels, a, i, acc) == ParseFrom(WrittenLabels, b, i, acc)
    decreases |a| - i
  {
    if i < |a| {
      assert a[i] == a[1..][i - 1] == b[1..][i - 1] == b[i];
      if i + 1 < |a| {
        assert a[i + 1] == a[1..][i] == b[1..][i] == b[i + 1];
        var command := DeDash(a[i]);
        match SwitchCase(WrittenLabels, command)
        case Some(setting) =>
          ParseFromIgnoresFirstToken(a, b, i + 2, Assign(acc, setting, a[i + 1]));
        case None =>
          var value := Split(StripBracket(a[i + 1]), '.');
          if |value| == 3 {
            ParseFromIgnoresFirstToken(a, b, i + 2, acc.(commands := acc.commands + [Command(command, value[0], value[1], value[2])]));
          }
      }
    }
  }

  lemma ParseIgnoresFirstToken(a: seq<string>, b: seq<string>)
    requires |a| == |b| && 1 <= |a| && a[1..] == b[1..]
    ensures ParseSpec(a) == ParseSpec(b)
  {
    ParseFromIgnoresFirstToken(a, b, 1, EmptySettings);
  }

  /** From pair `j` on, a successful parse keeps the settings, appends one command per
      remaining pair in order, and consumes every token. */
  lemma {:induction false} ParseFromReturned(args: seq<string>, j: nat, acc: Settings, l: Settings)
    requires ParseFrom(WrittenLabels, args, 2 * j + 1, acc) == Returned(l)
    ensures l.server == acc.server && l.userName == acc.userName
    ensures l.password == acc.password && l.targetPath == acc.targetPath
    ensures 2 * j + 1 >= |args| ==> l == acc
    ensures 2 * j + 1 < |args| ==> |args| % 2 == 1 && |l.commands| == |acc.commands| + (|args| - 1) / 2 - j
    ensures |acc.commands| <= |l.commands| && l.commands[..|acc.commands|] == acc.commands
    ensures forall m :: |acc.commands| <= m < |l.commands| ==>
              2 * (m - |acc.commands| + j) + 2 < |args| && CommandOfPair(args, m - |acc.commands| + j, l.commands[m])
    decreases |args| - 2 * j
  {
    var i := 2 * j + 1;
    if i < |args| {
      var command := DeDash(args[i]);
      FlagCasesUnreachable(args[i]);
      var value := Split(StripBracket(args[i + 1]), '.');
      var c := Command(command, value[0], value[1], value[2]);
      var acc' := acc.(commands := acc.commands + [c]);
      ParseFromReturned(args, j + 1, acc', l);
      assert CommandOfPair(args, j, c);
      assert l.commands[..|acc'.commands|] == acc'.commands;
      assert l.commands[|acc.commands|] == acc'.commands[|acc.commands|] == c;
      assert l.commands[..|acc.commands|] == acc'.commands[..|acc.commands|];
    }
  }

  /** A returned command list has no settings and exactly one command per pair, in order. */
  lemma ParseReturned(args: seq<string>, l: Settings)
    requires ParseSpec(args) == Returned(l)
    ensures l.server.None? && l.userName.None? && l.password.None? && l.targetPath.None?
    ensures |args| == 0 ==> l.commands == []
    ensures |args| > 0 ==> |args| % 2 == 1 && |l.commands| == (|args| - 1) / 2
    ensures forall k :: 0 <= k < |l.commands| ==> 2 * k + 2 < |args| && CommandOfPair(args, k, l.commands[k])
  {
    ParseFromReturned(args, 0, EmptySettings, l);
  }

  /** From pair `j` on, the loop completes exactly when no key lacks its value and
      every remaining value has three segments. */
  lemma {:induction false} ParseFromSucceedsIff(args: seq<string>, j: nat, acc: Settings)
    ensures ParseFrom(WrittenLabels, args, 2 * j + 1, acc).Returned? <==>
              (2 * j + 1 >= |args| || |args| % 2 == 1) &&
              forall k :: j <= k && 2 * k + 2 < |args| ==> ValidPair(args, k)
    decreases |args| - 2 * j
  {
    var i := 2 * j + 1;
    if i < |args| {
      FlagCasesUnreachable(args[i]);
      if i + 1 < |args| {
        var value := Split(StripBracket(args[i + 1]), '.');
        if |value| == 3 {
          var command := DeDash(args[i]);
          ParseFromSucceedsIff(args, j + 1, acc.(commands := acc.commands + [Command(command, value[0], value[1], value[2])]));
        } else {
          assert !ValidPair(args, j);
        }
      }
    }
  }

  /** `Parse` returns a list exactly when `args` is empty, or has the skipped first token
      and complete pairs whose values all have three segments. */
  lemma ParseSucceedsIff(args: seq<string>)
    ensures ParseSpec(args).Returned? <==>
              |args| != 1 && (|args| == 0 || |args| % 2 == 1) &&
              forall k :: 0 <= k && 2 * k + 2 < |args| ==> ValidPair(args, k)
  {
    ParseFromSucceedsIff(args, 0, EmptySettings);
  }

  lemma {:induction false} ParseFromMissingValue(args: seq<string>, j: nat, acc: Settings)
    requires 2 * j + 1 < |args| && |args| % 2 == 0
    requires forall k :: j <= k && 2 * k + 2 < |args| ==> ValidPair(args, k)
    ensures ParseFrom(WrittenLabels, args, 2 * j + 1, acc) == Raised(MissingValue(DeDash(args[|args| - 1])))
    decreases |args| - 2 * j
  {
    var i := 2 * j + 1;
    FlagCasesUnreachable(args[i]);
    if i + 1 < |args| {
      assert ValidPair(args, j);
      var value := Split(StripBracket(args[i + 1]), '.');
      var command := DeDash(args[i]);
      ParseFromMissingValue(args, j + 1, acc.(commands := acc.commands + [Command(command, value[0], value[1], value[2])]));
    }
  }

  /** An even number of tokens (the skipped first token included) with valid pairs throws "Missing value"
      for the last key. */
  lemma ParseMissingValue(args: seq<string>)
    requires |args| >= 2 && |args| % 2 == 0
    requires forall k :: 0 <= k && 2 * k + 2 < |args| ==> ValidPair(args, k)
    ensures ParseSpec(args) == Raised(MissingValue(DeDash(args[|args| - 1])))
  {
    ParseFromMissingValue(args, 0, EmptySettings);
  }

  lemma {:induction false} ParseFromInvalidValue(args: seq<string>, j: nat, bad: nat, acc: Settings)
    requires j <= bad && 2 * bad + 2 < |args| && !ValidPair(args, bad)
    requires forall k :: j <= k < bad ==> ValidPair(args, k)
    ensures ParseFrom(WrittenLabels, args, 2 * j + 1, acc) == Raised(InvalidValue)
    decreases bad - j
  {
    var i := 2 * j + 1;
    FlagCasesUnreachable(args[i]);
    if j < bad {
      assert ValidPair(args, j);
      var value := Split(StripBracket(args[i + 1]), '.');
      var command := DeDash(args[i]);
      ParseFromInvalidValue(args, j + 1, bad, acc.(commands := acc.commands + [Command(command, value[0], value[1], value[2])]));
    }
  }

  /** The first pair whose value does not have three segments throws "Invalid value". */
  lemma ParseInvalidValue(args: seq<string>, bad: nat)
    requires 2 * bad + 2 < |args| && !ValidPair(args, bad)
    requires forall k :: 0 <= k < bad ==> ValidPair(args, k)
    ensures ParseSpec(args) == Raised(InvalidValue)
  {
    ParseFromInvalidValue(args, 0, bad, EmptySettings);
  }

  /** Empty segments pass the three-segment test. */
  lemma EmptySegmentsAccepted()
    ensures ParseSpec(["sqlgen", "-t", "a..b"]) == Returned(EmptySettings.(commands := [Command("t", "a", "", "b")]))
  {
    var args := ["sqlgen", "-t", "a..b"];
    StripBracketUnchanged("a..b");
    assert DeDash("-t") == "t";
    FlagCasesUnreachable("-t");
    assert Join(["a", "", "b"], '.') == "a..b";
    SplitJoin(["a", "", "b"], '.');
    var c := Command("t", "a", "", "b");
    assert args[1] == "-t" && args[2] == "a..b";
    assert Split(StripBracket(args[2]), '.') == ["a", "", "b"];
    assert SwitchCase(WrittenLabels, DeDash(args[1])) == None;
    assert EmptySettings.commands + [c] == [c];
    assert ParseFrom(WrittenLabels, args, 1, EmptySettings) ==
           ParseFrom(WrittenLabels, args, 3, EmptySettings.(commands := [c]));
  }

  // ---------------------------------------------------------------------------
  // The settings flags (see "Findings" in the README)

  /** As written, `--server host` is parsed as an object reference and rejected whenever
      the host name has no `.` in it. */
  lemma ServerFlagRejected(host: string)
    requires '.' !in host
    ensures ParseSpec(["sqlgen", "--server", host]) == Raised(InvalidValue)
  {
    var args := ["sqlgen", "--server", host];
    FlagCasesUnreachable("--server");
    StripBracketMembers(host, '.');
    CountPositive(StripBracket(host), '.');
    SplitLength(StripBracket(host), '.');
  }

  function Label(setting: Setting): string {
    match setting
    case ServerSetting => "server"
    case UserNameSetting => "username"
    case PasswordSetting => "password"
    case TargetPathSetting => "targetPath"
  }

  /** With labels the de-dashed key can equal, `--<flag> value` sets that property and
      adds no command. */
  lemma IntendedFlagSets(setting: Setting, value: string)
    ensures ParseIntended(["sqlgen", "--" + Label(setting), value]) ==
              Returned(Assign(EmptySettings, setting, value))
  {
    var flag := Label(setting);
    DeDashFlag(flag);
    assert SwitchCase(IntendedLabels, flag) == Some(setting);
    var args := ["sqlgen", "--" + flag, value];
    assert args[1] == "--" + flag && args[2] == value;
    assert ParseFrom(IntendedLabels, args, 3, Assign(EmptySettings, setting, value)) ==
           Returned(Assign(EmptySettings, setting, value));
    assert ParseFrom(IntendedLabels, args, 1, EmptySettings) ==
           ParseFrom(IntendedLabels, args, 3, Assign(EmptySettings, setting, value));
  }

  /** Removing the dashes of `--flag` gives `flag` back when `flag` has none. */
  lemma DeDashFlag(flag: string)
    requires '-' !in flag
    ensures DeDash("--" + flag) == flag
  {
    RemoveCharAppend("--", flag, '-');
    assert RemoveChar("--", '-') == [];
    RemoveCharAbsent(flag, '-');
  }
}
