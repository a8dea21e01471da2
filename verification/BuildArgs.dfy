/**
 The argument parser of the buildx plugin, against a token grammar that is a bijection.
 */
module BuildArgs {
  import opened Options
  import opened Strings

  datatype BuildCommand = BuildCommand(
    context: string,
    dockerfile: string,
    tags: seq<string>,
    buildArgs: map<string, string>,
    noCache: bool,
    pull: bool,
    target: string,
    cacheFrom: seq<string>)

  const DEFAULT_COMMAND := BuildCommand("", "Dockerfile", [], map[], false, false, "", [])

  datatype ParseError = RequiresArgument(flag: Flag) | ContextRequired

  // ---------------------------------------------------------------------------------------------
  // Tokens
  // ---------------------------------------------------------------------------------------------

  datatype Flag = File | Tag | BuildArg | NoCache | Pull | Target | CacheFrom | Load | Skipped | Unknown | Path

  predicate StartsWithDash(token: string) {
    token != "" && token[0] == '-'
  }

  /** The arms of the parser's match, in their order. */
  function Classify(token: string): Flag {
    if token == "-f" || token == "--file" then File
    else if token == "-t" || token == "--tag" then Tag
    else if token == "--build-arg" then BuildArg
    else if token == "--no-cache" then NoCache
    else if token == "--pull" then Pull
    else if token == "--target" then Target
    else if token == "--cache-from" then CacheFrom
    else if token == "--load" then Load
    else if token == "--progress" || token == "--platform" || token == "--ssh" || token == "--secret" then Skipped
    else if StartsWithDash(token) then Unknown
    else Path
  }

  lemma FlagsStartWithDash(token: string)
    ensures StartsWithDash(token) <==> Classify(token) != Path
  {
  }

  /** Flags whose value is required. */
  predicate TakesValue(flag: Flag) {
    flag == File || flag == Tag || flag == BuildArg || flag == Target || flag == CacheFrom
  }

  /** `split_build_arg` */
  function SplitBuildArg(arg: string): (string, string) {
    var k := IndexOf(arg, '=');
    if k < |arg| then (arg[..k], arg[k + 1..]) else (arg, "")
  }

  // ---------------------------------------------------------------------------------------------
  // The grammar
  // ---------------------------------------------------------------------------------------------

  /** One argument group: a token and the value that it consumes, if any. */
  datatype Item = Item(token: string, value: Option<string>)

  function Render(items: seq<Item>): seq<string> {
    if items == [] then []
    else [items[0].token] + (if items[0].value.Some? then [items[0].value.value] else []) + Render(items[1..])
  }

  /** The item fits its flag, when `rest` is what follows it. */
  predicate Fits(item: Item, rest: seq<string>) {
    var flag := Classify(item.token);
    if TakesValue(flag) then item.value.Some?
    else if flag == Skipped then item.value.Some? || rest == []
    else if flag == Unknown then
      (item.value.Some? && !StartsWithDash(item.value.value)) ||
      (item.value.None? && (rest == [] || StartsWithDash(rest[0])))
    else item.value.None?
  }

  predicate WellFormed(items: seq<Item>) {
    items == [] || (Fits(items[0], Render(items[1..])) && WellFormed(items[1..]))
  }

  /** The items of an argument list from position `i` on, or the flag whose argument is missing. */
  function Tokenize(args: seq<string>, i: nat): Result<seq<Item>, Flag>
    decreases |args| - i
  {
    if i >= |args| then Ok([])
    else
      var flag := Classify(args[i]);
      if TakesValue(flag) && i + 1 >= |args| then Err(flag)
      else
        var value := ValueAt(args, i);
        var rest := Tokenize(args, i + 1 + (if value.Some? then 1 else 0));
        if rest.Err? then rest else Ok([Item(args[i], value)] + rest.value)
  }

  /** The value that the token at position `i` consumes. */
  function ValueAt(args: seq<string>, i: nat): Option<string>
    requires i < |args|
  {
    var flag := Classify(args[i]);
    if i + 1 < |args| && (TakesValue(flag) || flag == Skipped ||
                          (flag == Unknown && !StartsWithDash(args[i + 1])))
    then Some(args[i + 1]) else None
  }

  /** Every well-formed item list is recovered from its rendering. */
  lemma {:induction false} TokenizeRendered(args: seq<string>, i: nat, items: seq<Item>)
    requires i <= |args| && args[i..] == Render(items) && WellFormed(items)
    ensures Tokenize(args, i) == Ok(items)
    decreases |items|
  {
    if items != [] {
      hide Classify;
      var item, rest := items[0], Render(items[1..]);
      assert args[i] == args[i..][0] == item.token;
      var n := if item.value.Some? then 2 else 1;
      assert args[i + n..] == args[i..][n..] == rest;
      assert n == 2 ==> args[i + 1] == args[i..][1] == item.value.value;
      assert n == 1 && rest != [] ==> args[i + 1] == args[i..][1] == rest[0];
      TokenizeRendered(args, i + n, items[1..]);
      assert items == [item] + items[1..];
    }
  }

  lemma {:induction false} RenderHead(item: Item, items: seq<Item>)
    ensures Render([item] + items) ==
            [item.token] + (if item.value.Some? then [item.value.value] else []) + Render(items)
    ensures WellFormed([item] + items) <==> Fits(item, Render(items)) && WellFormed(items)
  {
    assert ([item] + items)[1..] == items;
  }

  lemma {:induction false} TokenizedFits(args: seq<string>, i: nat)
    requires i < |args| && Tokenize(args, i).Ok?
    ensures var value := ValueAt(args, i);
            Fits(Item(args[i], value), args[i + (if value.Some? then 2 else 1)..])
  {
    hide Classify;
  }

  /** One argument group in front of arguments that are the rendering of their items. */
  lemma {:induction false} RenderFirst(args: seq<string>, i: nat, later: seq<Item>)
    requires i < |args| && Tokenize(args, i).Ok?
    requires WellFormed(later) && Render(later) == args[i + (if ValueAt(args, i).Some? then 2 else 1)..]
    ensures WellFormed([Item(args[i], ValueAt(args, i))] + later)
    ensures Render([Item(args[i], ValueAt(args, i))] + later) == args[i..]
  {
    hide Tokenize, Render, WellFormed, Fits;
    TokenizedFits(args, i);
    RenderHead(Item(args[i], ValueAt(args, i)), later);
    if ValueAt(args, i).Some? {
      assert args[i..] == [args[i]] + [args[i + 1]] + args[i + 2..];
    } else {
      assert args[i..] == [args[i]] + [] + args[i + 1..];
    }
  }

  /** Every argument list without a missing argument is the rendering of its well-formed items. */
  lemma {:induction false} RenderTokenized(args: seq<string>, i: nat)
    requires i <= |args| && Tokenize(args, i).Ok?
    ensures WellFormed(Tokenize(args, i).value)
    ensures Render(Tokenize(args, i).value) == args[i..]
    decreases |args| - i
  {
    if i < |args| {
      hide Render, WellFormed, Tokenize, ValueAt, Classify;
      var n := if ValueAt(args, i).Some? then 2 else 1;
      TokenizeFirst(args, i, n);
      RenderTokenized(args, i + n);
      RenderFirst(args, i, Tokenize(args, i + n).value);
    } else {
      hide Classify, ValueAt;
    }
  }

  lemma TokenizeFirst(args: seq<string>, i: nat, n: nat)
    requires i < |args| && Tokenize(args, i).Ok? && n == (if ValueAt(args, i).Some? then 2 else 1)
    ensures i + n <= |args| && Tokenize(args, i + n).Ok?
    ensures Tokenize(args, i).value == [Item(args[i], ValueAt(args, i))] + Tokenize(args, i + n).value
  {
    hide Classify;
  }

  // ---------------------------------------------------------------------------------------------
  // The meaning of items
  // ---------------------------------------------------------------------------------------------

  function Apply(cmd: BuildCommand, item: Item): BuildCommand {
    var value := if item.value.Some? then item.value.value else "";
    match Classify(item.token)
    case File => cmd.(dockerfile := value)
    case Tag => cmd.(tags := cmd.tags + [value])
    case BuildArg => cmd.(buildArgs := cmd.buildArgs[SplitBuildArg(value).0 := SplitBuildArg(value).1])
    case NoCache => cmd.(noCache := true)
    case Pull => cmd.(pull := true)
    case Target => cmd.(target := value)
    case CacheFrom => cmd.(cacheFrom := cmd.cacheFrom + [value])
    case Path => cmd.(context := item.token)
    case _ => cmd
  }

  function ApplyAll(cmd: BuildCommand, items: seq<Item>): BuildCommand
    decreases |items|
  {
    if items == [] then cmd else ApplyAll(Apply(cmd, items[0]), items[1..])
  }

  function Finish(cmd: BuildCommand): Result<BuildCommand, ParseError> {
    if cmd.context == "" then Err(ContextRequired) else Ok(cmd)
  }

  /** What parsing `args` from position `i` on makes of a half-built command. */
  function ParseFrom(args: seq<string>, i: nat, cmd: BuildCommand): Result<BuildCommand, ParseError> {
    var items := Tokenize(args, i);
    if items.Err? then Err(RequiresArgument(items.error)) else Finish(ApplyAll(cmd, items.value))
  }

  lemma ParseStep(args: seq<string>, i: nat, cmd: BuildCommand)
    requires i < |args|
    ensures var flag, value := Classify(args[i]), ValueAt(args, i);
            ParseFrom(args, i, cmd) ==
              if TakesValue(flag) && value.None? then Err(RequiresArgument(flag))
              else ParseFrom(args, i + (if value.Some? then 2 else 1), Apply(cmd, Item(args[i], value)))
  {
    hide Classify, Apply, Finish;
    var value := ValueAt(args, i);
    var rest := Tokenize(args, i + (if value.Some? then 2 else 1));
    if rest.Ok? {
      assert ([Item(args[i], value)] + rest.value)[1..] == rest.value;
    }
  }

  lemma ParseEnd(args: seq<string>, i: nat, cmd: BuildCommand)
    requires i >= |args|
    ensures ParseFrom(args, i, cmd) == if cmd.context == "" then Err(ContextRequired) else Ok(cmd)
  {
  }

  // ---------------------------------------------------------------------------------------------
  // The parser, spelling by spelling
  // ---------------------------------------------------------------------------------------------

  lemma ValueSpellings()
    ensures Classify("-f") == File && Classify("--file") == File && Classify("-t") == Tag && Classify("--tag") == Tag
    ensures Classify("--build-arg") == BuildArg && Classify("--target") == Target
    ensures Classify("--cache-from") == CacheFrom
  {
  }

  lemma SwitchSpellings()
    ensures Classify("--no-cache") == NoCache && Classify("--pull") == Pull && Classify("--load") == Load
    ensures Classify("--progress") == Skipped && Classify("--platform") == Skipped
    ensures Classify("--ssh") == Skipped && Classify("--secret") == Skipped
  {
  }

  /** A flag with its value, in the short and in the long spelling, sets or extends its field. */
  lemma SpelledValue(args: seq<string>, i: nat, cmd: BuildCommand)
    requires i + 1 < |args|
    ensures args[i] == "-f" || args[i] == "--file" ==>
              ParseFrom(args, i, cmd) == ParseFrom(args, i + 2, cmd.(dockerfile := args[i + 1]))
    ensures args[i] == "-t" || args[i] == "--tag" ==>
              ParseFrom(args, i, cmd) == ParseFrom(args, i + 2, cmd.(tags := cmd.tags + [args[i + 1]]))
    ensures args[i] == "--target" ==>
              ParseFrom(args, i, cmd) == ParseFrom(args, i + 2, cmd.(target := args[i + 1]))
    ensures args[i] == "--cache-from" ==>
              ParseFrom(args, i, cmd) == ParseFrom(args, i + 2, cmd.(cacheFrom := cmd.cacheFrom + [args[i + 1]]))
  {
    ValueSpellings();
    hide Classify, ParseFrom, SplitBuildArg;
    ParseStep(args, i, cmd);
  }

  /** A build argument is cut at its first '='; without one its value is empty. */
  lemma SpelledBuildArg(args: seq<string>, i: nat, cmd: BuildCommand, key: string, text: string)
    requires i + 1 < |args| && args[i] == "--build-arg" && '=' !in key
    ensures args[i + 1] == key + "=" + text ==>
              ParseFrom(args, i, cmd) == ParseFrom(args, i + 2, cmd.(buildArgs := cmd.buildArgs[key := text]))
    ensures args[i + 1] == key ==>
              ParseFrom(args, i, cmd) == ParseFrom(args, i + 2, cmd.(buildArgs := cmd.buildArgs[key := ""]))
  {
    ValueSpellings();
    SplitAssignment(key, text);
    hide Classify, ParseFrom, IndexOf;
    ParseStep(args, i, cmd);
  }

  /** At the end of the arguments, a flag that needs a value is an error. */
  lemma MissingValue(args: seq<string>, i: nat, cmd: BuildCommand)
    requires i + 1 == |args|
    ensures args[i] == "-f" || args[i] == "--file" ==> ParseFrom(args, i, cmd) == Err(RequiresArgument(File))
    ensures args[i] == "-t" || args[i] == "--tag" ==> ParseFrom(args, i, cmd) == Err(RequiresArgument(Tag))
    ensures args[i] == "--build-arg" ==> ParseFrom(args, i, cmd) == Err(RequiresArgument(BuildArg))
    ensures args[i] == "--target" ==> ParseFrom(args, i, cmd) == Err(RequiresArgument(Target))
    ensures args[i] == "--cache-from" ==> ParseFrom(args, i, cmd) == Err(RequiresArgument(CacheFrom))
  {
    ValueSpellings();
    hide Classify, ParseFrom, SplitBuildArg;
    ParseStep(args, i, cmd);
  }

  /** Switches stand alone, and the flags that are not supported drop what follows them, even a flag. */
  lemma SpelledSwitch(args: seq<string>, i: nat, cmd: BuildCommand)
    requires i < |args|
    ensures args[i] == "--no-cache" ==> ParseFrom(args, i, cmd) == ParseFrom(args, i + 1, cmd.(noCache := true))
    ensures args[i] == "--pull" ==> ParseFrom(args, i, cmd) == ParseFrom(args, i + 1, cmd.(pull := true))
    ensures args[i] == "--load" ==> ParseFrom(args, i, cmd) == ParseFrom(args, i + 1, cmd)
    ensures args[i] == "--progress" || args[i] == "--platform" || args[i] == "--ssh" || args[i] == "--secret" ==>
              ParseFrom(args, i, cmd) == ParseFrom(args, i + 2, cmd)
  {
    SwitchSpellings();
    hide Classify, ParseFrom, SplitBuildArg;
    ParseStep(args, i, cmd);
    if i + 1 == |args| {
      ParseEnd(args, i + 1, cmd);
      ParseEnd(args, i + 2, cmd);
    }
  }

  /** The spellings that the parser names. */
  predicate IsNamed(token: string) {
    token in {"-f", "--file", "-t", "--tag", "--build-arg", "--target", "--cache-from", "--no-cache", "--pull",
              "--load", "--progress", "--platform", "--ssh", "--secret"}
  }

  lemma OtherSpellings(token: string)
    ensures token == "" || token[0] != '-' ==> Classify(token) == Path
    ensures token != "" && token[0] == '-' && !IsNamed(token) ==> Classify(token) == Unknown
  {
  }

  /** Every argument without a leading dash is the context, until a later one is. */
  lemma SpelledPath(args: seq<string>, i: nat, cmd: BuildCommand)
    requires i < |args| && (args[i] == "" || args[i][0] != '-')
    ensures ParseFrom(args, i, cmd) == ParseFrom(args, i + 1, cmd.(context := args[i]))
  {
    hide Classify, ParseFrom, SplitBuildArg, IsNamed;
    OtherSpellings(args[i]);
    ParseStep(args, i, cmd);
  }

  /** An unknown flag drops the argument behind it, unless that is a flag too. */
  lemma UnknownFlag(args: seq<string>, i: nat, cmd: BuildCommand)
    requires i < |args| && args[i] != "" && args[i][0] == '-' && !IsNamed(args[i])
    ensures ParseFrom(args, i, cmd) ==
            if i + 1 < |args| && (args[i + 1] == "" || args[i + 1][0] != '-') then ParseFrom(args, i + 2, cmd)
            else ParseFrom(args, i + 1, cmd)
  {
    OtherSpellings(args[i]);
    hide Classify, ParseFrom, SplitBuildArg, IsNamed;
    ParseStep(args, i, cmd);
  }

  // ---------------------------------------------------------------------------------------------
  // The parser
  // ---------------------------------------------------------------------------------------------

  /** `parse_build_args`: one pass over the arguments with an index that skips consumed values. */
  method ParseBuildArgs(args: seq<string>) returns (r: Result<BuildCommand, ParseError>)
    ensures r == ParseFrom(args, 0, BuildCommand("", "Dockerfile", [], map[], false, false, "", []))
  {
    hide Classify, ParseFrom, StartsWithDash, SplitBuildArg;
    var cmd := DEFAULT_COMMAND;
    var index := 0;
    while index < |args|
      invariant ParseFrom(args, index, cmd) == ParseFrom(args, 0, DEFAULT_COMMAND)
    {
      ParseStep(args, index, cmd);
      var token := args[index];
      var flag := Classify(token);
      if TakesValue(flag) {
        index := index + 1;
        if index >= |args| {
          return Err(RequiresArgument(flag));
        }
        var value := args[index];
        match flag
        case File => cmd := cmd.(dockerfile := value);
        case Tag => cmd := cmd.(tags := cmd.tags + [value]);
        case BuildArg =>
          var (key, text) := SplitBuildArg(value);
          cmd := cmd.(buildArgs := cmd.buildArgs[key := text]);
        case Target => cmd := cmd.(target := value);
        case CacheFrom => cmd := cmd.(cacheFrom := cmd.cacheFrom + [value]);
      } else {
        match flag
        case NoCache => cmd := cmd.(noCache := true);
        case Pull => cmd := cmd.(pull := true);
        case Skipped => index := index + 1;
        case Unknown =>
          if index + 1 < |args| && !StartsWithDash(args[index + 1]) {
            index := index + 1;
          }
        case Path => cmd := cmd.(context := token);
        case _ =>
      }
      index := index + 1;
      if index > |args| {
        ParseEnd(args, index, cmd);
        ParseEnd(args, |args|, cmd);
      }
    }
    ParseEnd(args, index, cmd);
    if cmd.context == "" {
      return Err(ContextRequired);
    }
    return Ok(cmd);
  }

  // ---------------------------------------------------------------------------------------------
  // What a parsed command contains
  // ---------------------------------------------------------------------------------------------

  function Payload(item: Item): string {
    if Classify(item.token) == Path then item.token
    else if item.value.Some? then item.value.value
    else ""
  }

  /** The payloads of all items with this flag, in order. */
  function All(items: seq<Item>, flag: Flag): seq<string> {
    if items == [] then []
    else (if Classify(items[0].token) == flag then [Payload(items[0])] else []) + All(items[1..], flag)
  }

  predicate Has(items: seq<Item>, flag: Flag) {
    exists i :: 0 <= i < |items| && Classify(items[i].token) == flag
  }

  /** The last element, or a default. */
  function LastOr(payloads: seq<string>, default: string): string {
    if payloads == [] then default else payloads[|payloads| - 1]
  }

  /** The value of the last build argument with this key. */
  function LastArg(items: seq<Item>, key: string): Option<string> {
    if items == [] then None
    else
      var later := LastArg(items[1..], key);
      if later.Some? then later
      else if Classify(items[0].token) == BuildArg && SplitBuildArg(Payload(items[0])).0 == key
      then Some(SplitBuildArg(Payload(items[0])).1)
      else None
  }

  lemma ApplyLists(cmd: BuildCommand, item: Item)
    ensures Apply(cmd, item).tags == cmd.tags + if Classify(item.token) == Tag then [Payload(item)] else []
    ensures Apply(cmd, item).cacheFrom ==
            cmd.cacheFrom + if Classify(item.token) == CacheFrom then [Payload(item)] else []
  {
    hide Classify, SplitBuildArg;
    assert cmd.tags + [] == cmd.tags && cmd.cacheFrom + [] == cmd.cacheFrom;
  }

  lemma {:induction false} AppliedLists(cmd: BuildCommand, items: seq<Item>)
    ensures var r := ApplyAll(cmd, items);
            r.tags == cmd.tags + All(items, Tag) && r.cacheFrom == cmd.cacheFrom + All(items, CacheFrom)
    decreases |items|
  {
    if items != [] {
      hide Classify, Apply, Payload, ApplyAll, All;
      var item, rest := items[0], items[1..];
      assert ApplyAll(cmd, items) == ApplyAll(Apply(cmd, item), rest) by { ApplyFirst(cmd, items); }
      AppliedLists(Apply(cmd, item), rest);
      ApplyLists(cmd, item);
      AllFirst(items, Tag);
      AllFirst(items, CacheFrom);
      Regroup(cmd.tags, Own(item, Tag), All(rest, Tag));
      Regroup(cmd.cacheFrom, Own(item, CacheFrom), All(rest, CacheFrom));
    } else {
      assert cmd.tags + [] == cmd.tags && cmd.cacheFrom + [] == cmd.cacheFrom;
    }
  }

  lemma {:induction false} ApplyFirst(cmd: BuildCommand, items: seq<Item>)
    requires items != []
    ensures ApplyAll(cmd, items) == ApplyAll(Apply(cmd, items[0]), items[1..])
  {
    hide Apply;
  }

  /** The payload of one item, if it has the flag. */
  function Own(item: Item, flag: Flag): seq<string> {
    if Classify(item.token) == flag then [Payload(item)] else []
  }

  lemma {:induction false} AllFirst(items: seq<Item>, flag: Flag)
    requires items != []
    ensures All(items, flag) == Own(items[0], flag) + All(items[1..], flag)
  {
    hide Classify, Payload;
  }

  lemma Regroup(a: seq<string>, b: seq<string>, c: seq<string>)
    ensures a + b + c == a + (b + c)
  {
  }

  lemma LastOfMore(first: string, rest: seq<string>, default: string)
    ensures LastOr([first] + rest, default) == LastOr(rest, first)
  {
  }

  /** The field that each occurrence of the flag overwrites. */
  function Single(cmd: BuildCommand, flag: Flag): string {
    if flag == File then cmd.dockerfile else if flag == Target then cmd.target else cmd.context
  }

  lemma {:induction false} AppliedSingle(cmd: BuildCommand, items: seq<Item>, flag: Flag)
    requires flag == File || flag == Target || flag == Path
    ensures Single(ApplyAll(cmd, items), flag) == LastOr(All(items, flag), Single(cmd, flag))
    decreases |items|
  {
    if items != [] {
      hide Classify, SplitBuildArg, LastOr, Single, Apply, Payload;
      var cmd', rest := Apply(cmd, items[0]), All(items[1..], flag);
      AppliedSingle(cmd', items[1..], flag);
      LastOfMore(Payload(items[0]), rest, Single(cmd, flag));
      ApplySingle(cmd, items[0], flag);
      assert [] + rest == rest;
    }
  }

  lemma ApplySingle(cmd: BuildCommand, item: Item, flag: Flag)
    requires flag == File || flag == Target || flag == Path
    ensures Single(Apply(cmd, item), flag) ==
            if Classify(item.token) == flag then Payload(item) else Single(cmd, flag)
  {
    hide Classify;
  }

  lemma {:induction false} AppliedSwitches(cmd: BuildCommand, items: seq<Item>)
    ensures var r := ApplyAll(cmd, items);
            (r.noCache <==> cmd.noCache || Has(items, NoCache)) && (r.pull <==> cmd.pull || Has(items, Pull))
    decreases |items|
  {
    if items != [] {
      hide Classify, SplitBuildArg, Has;
      AppliedSwitches(Apply(cmd, items[0]), items[1..]);
      HasSplits(items, NoCache);
      HasSplits(items, Pull);
    }
  }

  lemma HasSplits(items: seq<Item>, flag: Flag)
    requires items != []
    ensures Has(items, flag) <==> Classify(items[0].token) == flag || Has(items[1..], flag)
  {
    hide Classify;
    if Has(items[1..], flag) {
      var i :| 0 <= i < |items[1..]| && Classify(items[1..][i].token) == flag;
      assert Classify(items[i + 1].token) == flag;
    }
    if Has(items, flag) {
      var i :| 0 <= i < |items| && Classify(items[i].token) == flag;
      assert i > 0 ==> Classify(items[1..][i - 1].token) == flag;
    }
  }

  lemma {:induction false} AppliedBuildArgs(cmd: BuildCommand, items: seq<Item>, key: string)
    ensures var r, last := ApplyAll(cmd, items), LastArg(items, key);
            && (key in r.buildArgs <==> last.Some? || key in cmd.buildArgs)
            && (key in r.buildArgs ==>
                  r.buildArgs[key] == if last.Some? then last.value else cmd.buildArgs[key])
    decreases |items|
  {
    if items != [] {
      hide Classify, SplitBuildArg, Apply, Payload;
      AppliedBuildArgs(Apply(cmd, items[0]), items[1..], key);
      ApplyBuildArg(cmd, items[0], key);
    }
  }

  lemma ApplyBuildArg(cmd: BuildCommand, item: Item, key: string)
    ensures var r, own := Apply(cmd, item), Classify(item.token) == BuildArg && SplitBuildArg(Payload(item)).0 == key;
            && (key in r.buildArgs <==> own || key in cmd.buildArgs)
            && (key in r.buildArgs ==>
                  r.buildArgs[key] == if own then SplitBuildArg(Payload(item)).1 else cmd.buildArgs[key])
  {
    hide Classify, SplitBuildArg;
  }

  /**
   Parsing, for every argument list: it fails exactly when a flag's required argument is missing or
   no non-empty context remains; otherwise the command is read off the items.
   */
  lemma {:induction false} ParseMeaning(args: seq<string>)
    ensures var t, r := Tokenize(args, 0), ParseFrom(args, 0, DEFAULT_COMMAND);
            && (t.Err? ==> r == Err(RequiresArgument(t.error)))
            && (t.Ok? ==> var items := t.value;
                  if LastOr(All(items, Path), "") == "" then r == Err(ContextRequired)
                  else
                    && r.Ok?
                    && r.value.context == LastOr(All(items, Path), "")
                    && r.value.dockerfile == LastOr(All(items, File), "Dockerfile")
                    && r.value.target == LastOr(All(items, Target), "")
                    && r.value.tags == All(items, Tag)
                    && r.value.cacheFrom == All(items, CacheFrom)
                    && (r.value.noCache <==> Has(items, NoCache))
                    && (r.value.pull <==> Has(items, Pull))
                    && forall key :: (key in r.value.buildArgs <==> LastArg(items, key).Some?) &&
                         (key in r.value.buildArgs ==> Some(r.value.buildArgs[key]) == LastArg(items, key)))
  {
    hide Classify;
    var t := Tokenize(args, 0);
    if t.Ok? {
      AppliedLists(DEFAULT_COMMAND, t.value);
      AppliedSingle(DEFAULT_COMMAND, t.value, File);
      AppliedSingle(DEFAULT_COMMAND, t.value, Target);
      AppliedSingle(DEFAULT_COMMAND, t.value, Path);
      AppliedSwitches(DEFAULT_COMMAND, t.value);
      forall key {
        AppliedBuildArgs(DEFAULT_COMMAND, t.value, key);
      }
    }
  }

  // ---------------------------------------------------------------------------------------------
  // The parser undoes every printer
  // ---------------------------------------------------------------------------------------------

  /**
   The items spell out the command, in any interleaving: tags and cache sources in order, and every
   other group any number of times as long as the occurrences agree; defaults may be left out.
   */
  ghost predicate Describes(items: seq<Item>, cmd: BuildCommand) {
    && All(items, Tag) == cmd.tags
    && All(items, CacheFrom) == cmd.cacheFrom
    && (forall v :: v in All(items, File) ==> v == cmd.dockerfile)
    && (All(items, File) == [] ==> cmd.dockerfile == "Dockerfile")
    && (forall v :: v in All(items, Target) ==> v == cmd.target)
    && (All(items, Target) == [] ==> cmd.target == "")
    && (forall v :: v in All(items, Path) ==> v == cmd.context)
    && All(items, Path) != []
    && (cmd.noCache <==> Has(items, NoCache))
    && (cmd.pull <==> Has(items, Pull))
    && (forall v :: v in All(items, BuildArg) ==>
          SplitBuildArg(v).0 in cmd.buildArgs && cmd.buildArgs[SplitBuildArg(v).0] == SplitBuildArg(v).1)
    && (forall key :: key in cmd.buildArgs ==> exists v :: v in All(items, BuildArg) && SplitBuildArg(v).0 == key)
  }

  lemma {:induction false} LastArgIsListed(items: seq<Item>, key: string)
    ensures var last := LastArg(items, key);
            && (last.Some? ==> exists v :: v in All(items, BuildArg) && SplitBuildArg(v) == (key, last.value))
            && (last.None? ==> forall v :: v in All(items, BuildArg) ==> SplitBuildArg(v).0 != key)
    decreases |items|
  {
    if items != [] {
      hide Classify, SplitBuildArg, Payload;
      LastArgIsListed(items[1..], key);
      if LastArg(items[1..], key).Some? {
        var v :| v in All(items[1..], BuildArg) && SplitBuildArg(v) == (key, LastArg(items[1..], key).value);
        assert v in All(items, BuildArg);
      } else if LastArg(items, key).Some? {
        assert Payload(items[0]) in All(items, BuildArg);
      }
    }
  }

  lemma LastIsListed(payloads: seq<string>, default: string)
    ensures payloads != [] ==> LastOr(payloads, default) in payloads
  {
  }

  /** Parsing any rendering of a command with a context returns that command. */
  lemma {:induction false} ParserUndoesPrinter(items: seq<Item>, cmd: BuildCommand)
    requires WellFormed(items) && Describes(items, cmd) && cmd.context != ""
    ensures ParseFrom(Render(items), 0, DEFAULT_COMMAND) == Ok(cmd)
  {
    hide Classify, SplitBuildArg, Payload, WellFormed, All, Has;
    var args := Render(items);
    assert args[0..] == args;
    TokenizeRendered(args, 0, items);
    ParseMeaning(args);
    LastIsListed(All(items, Path), "");
    LastIsListed(All(items, File), "Dockerfile");
    LastIsListed(All(items, Target), "");
    var r := ParseFrom(args, 0, DEFAULT_COMMAND).value;
    forall key
      ensures key in r.buildArgs <==> key in cmd.buildArgs
      ensures key in cmd.buildArgs ==> r.buildArgs[key] == cmd.buildArgs[key]
    {
      LastArgIsListed(items, key);
    }
    assert r.buildArgs == cmd.buildArgs;
  }

  // ---------------------------------------------------------------------------------------------
  // One printer
  // ---------------------------------------------------------------------------------------------

  function Group(token: string, values: seq<string>): seq<Item> {
    seq(|values|, i requires 0 <= i < |values| => Item(token, Some(values[i])))
  }

  function Assignments(keys: seq<string>, buildArgs: map<string, string>): seq<string>
    requires forall k :: k in keys ==> k in buildArgs
  {
    seq(|keys|, i requires 0 <= i < |keys| => keys[i] + "=" + buildArgs[keys[i]])
  }

  function Switch(token: string, on: bool): seq<Item> {
    if on then [Item(token, None)] else []
  }

  /** Prints every group once; `keys` lists the build-arg keys. */
  function Print(cmd: BuildCommand, keys: seq<string>): seq<Item>
    requires forall k :: k in keys ==> k in cmd.buildArgs
  {
    Group("-t", cmd.tags) + (Group("--cache-from", cmd.cacheFrom)
    + (Group("--build-arg", Assignments(keys, cmd.buildArgs))
    + (Group("-f", [cmd.dockerfile]) + (Group("--target", [cmd.target])
    + (Switch("--no-cache", cmd.noCache) + (Switch("--pull", cmd.pull) + [Item(cmd.context, None)]))))))
  }

  lemma {:induction false} AllOfGroup(token: string, values: seq<string>, rest: seq<Item>, flag: Flag)
    requires Classify(token) != Path
    ensures Classify(token) != flag ==> All(Group(token, values) + rest, flag) == All(rest, flag)
    ensures Classify(token) == flag ==> All(Group(token, values) + rest, flag) == values + All(rest, flag)
    decreases |values|
  {
    hide Classify, All;
    var g := Group(token, values);
    if values == [] {
      assert g + rest == rest && values + All(rest, flag) == All(rest, flag);
    } else {
      var more := values[1..];
      AllOfGroup(token, more, rest, flag);
      assert (g + rest)[0] == Item(token, Some(values[0])) && (g + rest)[1..] == Group(token, more) + rest;
      AllFirst(g + rest, flag);
      assert [] + All(rest, flag) == All(rest, flag);
      assert values == [values[0]] + more;
      Regroup([values[0]], more, All(rest, flag));
    }
  }

  lemma {:induction false} AllOfSwitch(token: string, on: bool, rest: seq<Item>, flag: Flag)
    requires Classify(token) != flag
    ensures All(Switch(token, on) + rest, flag) == All(rest, flag)
  {
    hide Classify;
    assert on ==> (Switch(token, on) + rest)[1..] == rest;
    assert !on ==> Switch(token, on) + rest == rest;
  }

  lemma {:induction false} HasInGroup(token: string, values: seq<string>, rest: seq<Item>, flag: Flag)
    requires Classify(token) != flag
    ensures Has(Group(token, values) + rest, flag) <==> Has(rest, flag)
    decreases |values|
  {
    hide Classify, Has;
    var g := Group(token, values);
    if values == [] {
      assert g + rest == rest;
    } else {
      HasSplits(g + rest, flag);
      HasInGroup(token, values[1..], rest, flag);
      assert (g + rest)[1..] == Group(token, values[1..]) + rest;
    }
  }

  lemma HasInSwitch(token: string, on: bool, rest: seq<Item>, flag: Flag)
    ensures Has(Switch(token, on) + rest, flag) <==> (on && Classify(token) == flag) || Has(rest, flag)
  {
    hide Classify, Has;
    if on {
      HasSplits(Switch(token, on) + rest, flag);
      assert (Switch(token, on) + rest)[1..] == rest;
    } else {
      assert Switch(token, on) + rest == rest;
    }
  }

  lemma {:induction false} GroupFits(token: string, values: seq<string>, rest: seq<Item>)
    requires TakesValue(Classify(token)) && WellFormed(rest)
    ensures WellFormed(Group(token, values) + rest)
    decreases |values|
  {
    hide Classify, Render;
    var g := Group(token, values);
    if values == [] {
      assert g + rest == rest;
    } else {
      GroupFits(token, values[1..], rest);
      assert (g + rest)[0] == Item(token, Some(values[0]));
      assert (g + rest)[1..] == Group(token, values[1..]) + rest;
    }
  }

  lemma {:induction false} SwitchFits(token: string, on: bool, rest: seq<Item>)
    requires Classify(token) == NoCache || Classify(token) == Pull
    requires WellFormed(rest)
    ensures WellFormed(Switch(token, on) + rest)
  {
    hide Classify;
    assert on ==> (Switch(token, on) + rest)[1..] == rest;
    assert !on ==> Switch(token, on) + rest == rest;
  }

  lemma PrintFits(cmd: BuildCommand, keys: seq<string>)
    requires forall k :: k in keys ==> k in cmd.buildArgs
    requires !StartsWithDash(cmd.context)
    ensures WellFormed(Print(cmd, keys))
  {
    ValueSpellings();
    SwitchSpellings();
    hide Classify, WellFormed;
    var r0 := [Item(cmd.context, None)];
    assert WellFormed(r0) by { PathFits(cmd.context); }
    var r1 := Switch("--pull", cmd.pull) + r0;
    SwitchFits("--pull", cmd.pull, r0);
    var r2 := Switch("--no-cache", cmd.noCache) + r1;
    SwitchFits("--no-cache", cmd.noCache, r1);
    var r3 := Group("--target", [cmd.target]) + r2;
    GroupFits("--target", [cmd.target], r2);
    var r4 := Group("-f", [cmd.dockerfile]) + r3;
    GroupFits("-f", [cmd.dockerfile], r3);
    var r5 := Group("--build-arg", Assignments(keys, cmd.buildArgs)) + r4;
    GroupFits("--build-arg", Assignments(keys, cmd.buildArgs), r4);
    var r6 := Group("--cache-from", cmd.cacheFrom) + r5;
    GroupFits("--cache-from", cmd.cacheFrom, r5);
    GroupFits("-t", cmd.tags, r6);
  }

  lemma PathFits(context: string)
    requires !StartsWithDash(context)
    ensures WellFormed([Item(context, None)])
  {
    FlagsStartWithDash(context);
    hide Classify;
  }

  lemma AppendNothing(values: seq<string>)
    ensures values + [] == values
  {
  }

  lemma {:induction false} AllOfPath(context: string, flag: Flag)
    requires Classify(context) == Path
    ensures All([Item(context, None)], flag) == if flag == Path then [context] else []
  {
    hide Classify;
    assert [Item(context, None)][1..] == [];
  }

  /** What is printed under one flag. */
  lemma {:induction false} PrintedUnder(cmd: BuildCommand, keys: seq<string>, flag: Flag)
    requires forall k :: k in keys ==> k in cmd.buildArgs
    requires !StartsWithDash(cmd.context) && flag != NoCache && flag != Pull
    ensures All(Print(cmd, keys), flag) ==
            match flag
            case Tag => cmd.tags
            case CacheFrom => cmd.cacheFrom
            case BuildArg => Assignments(keys, cmd.buildArgs)
            case File => [cmd.dockerfile]
            case Target => [cmd.target]
            case Path => [cmd.context]
            case _ => []
  {
    hide Classify, All, TakesValue, Group, Switch, Assignments;
    ValueSpellings();
    SwitchSpellings();
    FlagsStartWithDash(cmd.context);
    var r0 := [Item(cmd.context, None)];
    AllOfPath(cmd.context, flag);
    var r1 := Switch("--pull", cmd.pull) + r0;
    AllOfSwitch("--pull", cmd.pull, r0, flag);
    var r2 := Switch("--no-cache", cmd.noCache) + r1;
    AllOfSwitch("--no-cache", cmd.noCache, r1, flag);
    var r3 := Group("--target", [cmd.target]) + r2;
    AllOfGroup("--target", [cmd.target], r2, flag);
    var r4 := Group("-f", [cmd.dockerfile]) + r3;
    AllOfGroup("-f", [cmd.dockerfile], r3, flag);
    var r5 := Group("--build-arg", Assignments(keys, cmd.buildArgs)) + r4;
    AllOfGroup("--build-arg", Assignments(keys, cmd.buildArgs), r4, flag);
    var r6 := Group("--cache-from", cmd.cacheFrom) + r5;
    AllOfGroup("--cache-from", cmd.cacheFrom, r5, flag);
    AllOfGroup("-t", cmd.tags, r6, flag);
    AppendNothing(cmd.tags);
    AppendNothing(cmd.cacheFrom);
    AppendNothing(Assignments(keys, cmd.buildArgs));
  }

  lemma PrintedSwitches(cmd: BuildCommand, keys: seq<string>)
    requires forall k :: k in keys ==> k in cmd.buildArgs
    requires !StartsWithDash(cmd.context)
    ensures Has(Print(cmd, keys), NoCache) <==> cmd.noCache
    ensures Has(Print(cmd, keys), Pull) <==> cmd.pull
  {
    ValueSpellings();
    SwitchSpellings();
    FlagsStartWithDash(cmd.context);
    hide Classify;
    forall flag | flag == NoCache || flag == Pull
      ensures Has(Print(cmd, keys), flag) <==> if flag == NoCache then cmd.noCache else cmd.pull
    {
      var r0 := [Item(cmd.context, None)];
      assert !Has(r0, flag);
      hide Has;
      var r1 := Switch("--pull", cmd.pull) + r0;
      HasInSwitch("--pull", cmd.pull, r0, flag);
      var r2 := Switch("--no-cache", cmd.noCache) + r1;
      HasInSwitch("--no-cache", cmd.noCache, r1, flag);
      var r3 := Group("--target", [cmd.target]) + r2;
      HasInGroup("--target", [cmd.target], r2, flag);
      var r4 := Group("-f", [cmd.dockerfile]) + r3;
      HasInGroup("-f", [cmd.dockerfile], r3, flag);
      var r5 := Group("--build-arg", Assignments(keys, cmd.buildArgs)) + r4;
      HasInGroup("--build-arg", Assignments(keys, cmd.buildArgs), r4, flag);
      var r6 := Group("--cache-from", cmd.cacheFrom) + r5;
      HasInGroup("--cache-from", cmd.cacheFrom, r5, flag);
      HasInGroup("-t", cmd.tags, r6, flag);
    }
  }

  lemma SplitAssignment(key: string, value: string)
    requires '=' !in key
    ensures SplitBuildArg(key + "=" + value) == (key, value)
  {
    hide IndexOf;
    CutAtFirst(key, '=', value);
  }

  lemma PrintedArgs(keys: seq<string>, buildArgs: map<string, string>)
    requires forall k :: k in keys <==> k in buildArgs
    requires forall k :: k in buildArgs ==> '=' !in k
    ensures var args := Assignments(keys, buildArgs);
            && (forall v :: v in args ==>
                  SplitBuildArg(v).0 in buildArgs && buildArgs[SplitBuildArg(v).0] == SplitBuildArg(v).1)
            && (forall key :: key in buildArgs ==> exists v :: v in args && SplitBuildArg(v).0 == key)
  {
    hide SplitBuildArg;
    var args := Assignments(keys, buildArgs);
    forall i | 0 <= i < |keys|
      ensures SplitBuildArg(args[i]) == (keys[i], buildArgs[keys[i]])
    {
      assert keys[i] in keys;
      SplitAssignment(keys[i], buildArgs[keys[i]]);
    }
    forall key | key in buildArgs
      ensures exists v :: v in args && SplitBuildArg(v).0 == key
    {
      var i :| 0 <= i < |keys| && keys[i] == key;
      assert args[i] in args;
    }
  }

  lemma PrintDescribes(cmd: BuildCommand, keys: seq<string>)
    requires forall k :: k in keys <==> k in cmd.buildArgs
    requires forall k :: k in cmd.buildArgs ==> '=' !in k
    requires !StartsWithDash(cmd.context)
    ensures Describes(Print(cmd, keys), cmd)
  {
    hide Classify, SplitBuildArg, Print, All, Has, Assignments;
    PrintedUnder(cmd, keys, Tag);
    PrintedUnder(cmd, keys, CacheFrom);
    PrintedUnder(cmd, keys, BuildArg);
    PrintedUnder(cmd, keys, File);
    PrintedUnder(cmd, keys, Target);
    PrintedUnder(cmd, keys, Path);
    PrintedSwitches(cmd, keys);
    PrintedArgs(keys, cmd.buildArgs);
  }

  /** Printing and parsing a command returns it, whatever order the build-arg keys are printed in. */
  lemma PrintThenParse(cmd: BuildCommand, keys: seq<string>)
    requires forall k :: k in keys <==> k in cmd.buildArgs
    requires forall k :: k in cmd.buildArgs ==> '=' !in k
    requires cmd.context != "" && !StartsWithDash(cmd.context)
    ensures ParseFrom(Render(Print(cmd, keys)), 0, DEFAULT_COMMAND) == Ok(cmd)
  {
    hide Print, WellFormed, Describes;
    PrintFits(cmd, keys);
    PrintDescribes(cmd, keys);
    ParserUndoesPrinter(Print(cmd, keys), cmd);
  }

  // ---------------------------------------------------------------------------------------------
  // Unknown flags
  // ---------------------------------------------------------------------------------------------

  /** Position `i` holds a token, and not a value that the token before it consumes. */
  predicate Free(args: seq<string>, i: nat)
    requires i < |args|
  {
    i == 0 || !Free(args, i - 1) || ValueAt(args, i - 1).None?
  }

  /** The paths at free positions from `i` on. */
  function FreePaths(args: seq<string>, i: nat): seq<string>
    decreases |args| - i
  {
    if i >= |args| then []
    else (if Free(args, i) && Classify(args[i]) == Path then [args[i]] else []) + FreePaths(args, i + 1)
  }

  /** A path is swallowed exactly when a free flag that takes a value, or an unknown one, stands before it. */
  lemma PathIsSwallowed(args: seq<string>, i: nat)
    requires 0 < i < |args| && Classify(args[i]) == Path
    ensures var flag := Classify(args[i - 1]);
            !Free(args, i) <==> Free(args, i - 1) && (TakesValue(flag) || flag == Skipped || flag == Unknown)
  {
    FlagsStartWithDash(args[i]);
    hide Classify;
  }

  lemma {:induction false} TokenizedPaths(args: seq<string>, i: nat)
    requires i <= |args| && Tokenize(args, i).Ok?
    requires i < |args| ==> Free(args, i)
    ensures All(Tokenize(args, i).value, Path) == FreePaths(args, i)
    decreases |args| - i
  {
    if i < |args| {
      hide Classify;
      var value := ValueAt(args, i);
      var n := if value.Some? then 2 else 1;
      TokenizedPaths(args, i + n);
      FirstPath(Item(args[i], value), Tokenize(args, i + n).value);
      PassedPath(args, i);
    }
  }

  lemma {:induction false} FirstPath(item: Item, items: seq<Item>)
    ensures All([item] + items, Path) == (if Classify(item.token) == Path then [item.token] else []) + All(items, Path)
  {
    hide Classify;
    assert ([item] + items)[1..] == items;
  }

  /** Passing a free token and its value passes at most that token's path. */
  lemma PassedPath(args: seq<string>, i: nat)
    requires i < |args| && Free(args, i)
    ensures FreePaths(args, i) ==
            (if Classify(args[i]) == Path then [args[i]] else [])
            + FreePaths(args, i + (if ValueAt(args, i).Some? then 2 else 1))
  {
    hide Classify, FreePaths, ValueAt;
    FreePathsFrom(args, i);
    if ValueAt(args, i).Some? {
      ValueIsThere(args, i);
      FreePathsFrom(args, i + 1);
      assert !Free(args, i + 1);
      assert [] + FreePaths(args, i + 2) == FreePaths(args, i + 2);
    }
  }

  lemma FreePathsFrom(args: seq<string>, i: nat)
    requires i < |args|
    ensures FreePaths(args, i) ==
            (if Free(args, i) && Classify(args[i]) == Path then [args[i]] else []) + FreePaths(args, i + 1)
  {
  }

  lemma ValueIsThere(args: seq<string>, i: nat)
    requires i < |args| && ValueAt(args, i).Some?
    ensures i + 1 < |args|
  {
  }

  /** The context is the last path that no flag swallows; without one, parsing fails. */
  lemma {:induction false} ContextIsLastFreePath(args: seq<string>)
    requires Tokenize(args, 0).Ok?
    ensures var context, r := LastOr(FreePaths(args, 0), ""), ParseFrom(args, 0, DEFAULT_COMMAND);
            if context == "" then r == Err(ContextRequired) else r.Ok? && r.value.context == context
  {
    hide ParseFrom, Tokenize, FreePaths, All, Has, LastArg;
    ParseMeaning(args);
    TokenizedPaths(args, 0);
  }

  /**
   An unknown flag consumes a following path. So `--tag=app .` has no context, because the joined
   form of a known flag is an unknown flag, while `. --tag=app` has one.
   */
  lemma UnknownFlagSwallowsContext(flag: string, context: string)
    requires Classify(flag) == Unknown && Classify(context) == Path && context != ""
    ensures ParseFrom([flag, context], 0, DEFAULT_COMMAND) == Err(ContextRequired)
    ensures ParseFrom([context, flag], 0, DEFAULT_COMMAND) == Ok(DEFAULT_COMMAND.(context := context))
  {
    FlagsStartWithDash(flag);
    FlagsStartWithDash(context);
    hide Classify, ParseFrom;
    ParseStep([flag, context], 0, DEFAULT_COMMAND);
    ParseEnd([flag, context], 2, DEFAULT_COMMAND);
    ParseStep([context, flag], 0, DEFAULT_COMMAND);
    ParseStep([context, flag], 1, DEFAULT_COMMAND.(context := context));
    ParseEnd([context, flag], 2, DEFAULT_COMMAND.(context := context));
  }

  /** The joined form of a known flag is an unknown flag. */
  lemma JoinedFlagSwallowsContext()
    ensures ParseFrom(["--tag=app", "."], 0, DEFAULT_COMMAND) == Err(ContextRequired)
  {
    assert Classify("--tag=app") == Unknown && Classify(".") == Path;
    UnknownFlagSwallowsContext("--tag=app", ".");
  }
}
