/**
 The argument parser of local-books (apps/local-books/src/cli.ts, `parseArgs`), proved equal to a
 grammar: an argument vector parses exactly when it spells a list of items, and then to what those
 items say, however they are spelled.
 */
module Cli {
  import opened Prelude
  import opened Strings

  datatype Environment = Sandbox | Production

  datatype Flag = Full | Help | Version | NoOpen

  datatype Key = Entity | Interval | Port | QbEnv | Text(field: Field)

  /** The options that keep their value as it is. */
  datatype Field = Realm | DataDir | Start | End | Method | To | ToName | Line

  datatype ParsedArgs = ParsedArgs(
    command: string,
    positionals: seq<string>,
    full: bool,
    entities: seq<string>,
    intervalMs: Option<int>,
    dataDir: Option<string>,
    realm: Option<string>,
    environment: Option<Environment>,
    start: Option<string>,
    end: Option<string>,
    reportMethod: Option<string>,
    to: Option<string>,
    toName: Option<string>,
    line: Option<string>,
    noOpen: bool,
    port: Option<int>,
    help: bool,
    version: bool)

  const EMPTY := ParsedArgs("", [], false, [], None, None, None, None, None, None, None, None, None,
                            None, false, None, false, false)

  datatype CliError =
    | UnknownOption(name: string)
    | NeedsValue(name: string)
    | BadValue(key: Key, value: string)

  /** `parseInterval` and the integer test on `Number(..)`, both from libraries: None where the source
      throws. */
  datatype Coercions = Coercions(interval: string -> Option<int>, port: string -> Option<int>)

  // ---------------------------------------------------------------- names

  function FlagName(flag: Flag): string {
    match flag
    case Full => "--full"
    case Help => "--help"
    case Version => "--version"
    case NoOpen => "--no-open"
  }

  function ShortName(flag: Flag): Option<string> {
    match flag
    case Help => Some("-h")
    case Version => Some("-v")
    case _ => None
  }

  function KeyName(key: Key): string {
    match key
    case Entity => "--entity"
    case Interval => "--interval"
    case Port => "--port"
    case QbEnv => "--qb-env"
    case Text(Realm) => "--realm"
    case Text(DataDir) => "--data-dir"
    case Text(Start) => "--start"
    case Text(End) => "--end"
    case Text(Method) => "--method"
    case Text(To) => "--to"
    case Text(ToName) => "--to-name"
    case Text(Line) => "--line"
  }

  datatype Meaning = IsFlag(flag: Flag) | IsKey(key: Key) | IsUnknown

  /** The `switch` of the source. */
  function LookUp(name: string): Meaning {
    if name == "--full" then IsFlag(Full)
    else if name == "-h" || name == "--help" then IsFlag(Help)
    else if name == "-v" || name == "--version" then IsFlag(Version)
    else if name == "--entity" then IsKey(Entity)
    else if name == "--interval" then IsKey(Interval)
    else if name == "--realm" then IsKey(Text(Realm))
    else if name == "--data-dir" then IsKey(Text(DataDir))
    else if name == "--start" then IsKey(Text(Start))
    else if name == "--end" then IsKey(Text(End))
    else if name == "--method" then IsKey(Text(Method))
    else if name == "--to" then IsKey(Text(To))
    else if name == "--to-name" then IsKey(Text(ToName))
    else if name == "--line" then IsKey(Text(Line))
    else if name == "--no-open" then IsFlag(NoOpen)
    else if name == "--port" then IsKey(Port)
    else if name == "--qb-env" then IsKey(QbEnv)
    else IsUnknown
  }

  predicate Dashed(token: string) { |token| > 0 && token[0] == '-' }

  predicate Long(token: string) { |token| > 1 && token[0] == '-' && token[1] == '-' }

  function EqualsAt(token: string): (i: int)
    ensures -1 <= i < |token|
  {
    if Long(token) then IndexOf(token, '=') else -1
  }

  function NameOf(token: string): string {
    var eq := EqualsAt(token);
    if eq == -1 then token else token[..eq]
  }

  function InlineOf(token: string): Option<string> {
    var eq := EqualsAt(token);
    if eq == -1 then None else Some(token[eq + 1..])
  }

  // ---------------------------------------------------------------- the parser

  function SetFlag(args: ParsedArgs, flag: Flag): ParsedArgs {
    match flag
    case Full => args.(full := true)
    case Help => args.(help := true)
    case Version => args.(version := true)
    case NoOpen => args.(noOpen := true)
  }

  function SetText(args: ParsedArgs, field: Field, value: string): ParsedArgs {
    match field
    case Realm => args.(realm := Some(value))
    case DataDir => args.(dataDir := Some(value))
    case Start => args.(start := Some(value))
    case End => args.(end := Some(value))
    case Method => args.(reportMethod := Some(value))
    case To => args.(to := Some(value))
    case ToName => args.(toName := Some(value))
    case Line => args.(line := Some(value))
  }

  function EnvironmentOf(value: string): Option<Environment> {
    if value == "sandbox" then Some(Sandbox)
    else if value == "production" then Some(Production)
    else None
  }

  function SetKey(c: Coercions, args: ParsedArgs, key: Key, value: string): Result<ParsedArgs, CliError> {
    match key
    case Entity => Ok(args.(entities := args.entities + [value]))
    case Text(field) => Ok(SetText(args, field, value))
    case Interval =>
      if c.interval(value).None? then Err(BadValue(key, value))
      else Ok(args.(intervalMs := c.interval(value)))
    case Port =>
      if c.port(value).None? then Err(BadValue(key, value)) else Ok(args.(port := c.port(value)))
    case QbEnv =>
      if EnvironmentOf(value).None? then Err(BadValue(key, value))
      else Ok(args.(environment := EnvironmentOf(value)))
  }

  function AddWord(args: ParsedArgs, word: string): ParsedArgs {
    if args.command == "" then args.(command := word)
    else args.(positionals := args.positionals + [word])
  }

  /** The rest of the loop, from the record built so far. */
  function ParseRest(c: Coercions, rest: seq<string>, args: ParsedArgs): Result<ParsedArgs, CliError>
    decreases |rest|
  {
    if rest == [] then Ok(args)
    else if !Dashed(rest[0]) then ParseRest(c, rest[1..], AddWord(args, rest[0]))
    else
      var name := NameOf(rest[0]);
      match LookUp(name)
      case IsUnknown => Err(UnknownOption(name))
      case IsFlag(flag) => ParseRest(c, rest[1..], SetFlag(args, flag))
      case IsKey(key) =>
        var inlined := InlineOf(rest[0]);
        if inlined.None? && |rest| == 1 then Err(NeedsValue(name))
        else
          var value := if inlined.Some? then inlined.value else rest[1];
          var taken := if inlined.Some? then 1 else 2;
          var next := SetKey(c, args, key, value);
          if next.Err? then next else ParseRest(c, rest[taken..], next.value)
  }

  function Parse(c: Coercions, argv: seq<string>): Result<ParsedArgs, CliError> {
    ParseRest(c, argv, EMPTY)
  }

  /** `takeValue`: the inline value, or the next token with the index moved onto it. */
  method TakeValue(argv: seq<string>, i: nat, name: string, inlineValue: Option<string>)
    returns (value: Result<string, CliError>, at: nat)
    requires i < |argv|
    ensures value ==
            if inlineValue.Some? then Ok(inlineValue.value)
            else if i + 1 < |argv| then Ok(argv[i + 1])
            else Err(NeedsValue(name))
    ensures at == if inlineValue.None? && i + 1 < |argv| then i + 1 else i
  {
    at := i;
    if inlineValue.Some? {
      return Ok(inlineValue.value), at;
    }
    if i + 1 == |argv| {
      return Err(NeedsValue(name)), at;
    }
    at := i + 1;
    value := Ok(argv[at]);
  }

  /** `parseArgs`. */
  method ParseArgs(c: Coercions, argv: seq<string>) returns (result: Result<ParsedArgs, CliError>)
    ensures result == Parse(c, argv)
  {
    var args := EMPTY;
    var i := 0;
    while i < |argv|
      invariant 0 <= i <= |argv|
      invariant ParseRest(c, argv[i..], args) == Parse(c, argv)
    {
      var token := argv[i];
      ghost var rest := argv[i..];
      assert rest[1..] == argv[i + 1..];
      if !Dashed(token) {
        args := AddWord(args, token);
        i := i + 1;
        continue;
      }
      var name, inlineValue := NameOf(token), InlineOf(token);
      match LookUp(name) {
        case IsUnknown =>
          return Err(UnknownOption(name));
        case IsFlag(flag) =>
          args := SetFlag(args, flag);
        case IsKey(key) =>
          var value, at := TakeValue(argv, i, name, inlineValue);
          if value.Err? {
            return Err(value.error);
          }
          assert at > i ==> rest[2..] == argv[i + 2..];
          var next := SetKey(c, args, key, value.value);
          if next.Err? {
            return next;
          }
          args, i := next.value, at;
      }
      i := i + 1;
    }
    result := Ok(args);
  }

  // ---------------------------------------------------------------- the grammar

  datatype Spelling = Apart | Inline

  datatype FlagSpelling = Plain | Short | WithJunk(junk: string)

  datatype Item =
    | Word(word: string)
    | FlagItem(flag: Flag, look: FlagSpelling)
    | KeyItem(key: Key, value: string, spelling: Spelling)

  function Spell(item: Item): seq<string> {
    match item
    case Word(word) => [word]
    case FlagItem(flag, Plain) => [FlagName(flag)]
    case FlagItem(flag, Short) => if ShortName(flag).Some? then [ShortName(flag).value] else []
    case FlagItem(flag, WithJunk(junk)) => [FlagName(flag) + "=" + junk]
    case KeyItem(key, value, Apart) => [KeyName(key), value]
    case KeyItem(key, value, Inline) => [KeyName(key) + "=" + value]
  }

  function SpellAll(items: seq<Item>): seq<string> {
    if items == [] then [] else Spell(items[0]) + SpellAll(items[1..])
  }

  /** An item the grammar allows; a short spelling only for flags that have one. */
  predicate Allowed(c: Coercions, item: Item) {
    match item
    case Word(word) => !Dashed(word)
    case FlagItem(flag, look) => look == Short ==> ShortName(flag).Some?
    case KeyItem(key, value, _) => Accepts(c, key, value)
  }

  predicate Accepts(c: Coercions, key: Key, value: string) {
    match key
    case Interval => c.interval(value).Some?
    case Port => c.port(value).Some?
    case QbEnv => value == "sandbox" || value == "production"
    case _ => true
  }

  predicate AllAllowed(c: Coercions, items: seq<Item>) {
    forall i :: 0 <= i < |items| ==> Allowed(c, items[i])
  }

  // ---------------------------------------------------------------- what the items say

  function Words(items: seq<Item>): seq<string> {
    if items == [] then []
    else (if items[0].Word? then [items[0].word] else []) + Words(items[1..])
  }

  /** Empty words before the command are skipped: an empty command is no command. */
  function FromCommand(words: seq<string>): seq<string> {
    if words != [] && words[0] == "" then FromCommand(words[1..]) else words
  }

  predicate HasFlag(items: seq<Item>, flag: Flag) {
    exists i :: 0 <= i < |items| && items[i].FlagItem? && items[i].flag == flag
  }

  function Values(items: seq<Item>, key: Key): seq<string> {
    if items == [] then []
    else (if items[0].KeyItem? && items[0].key == key then [items[0].value] else []) + Values(items[1..], key)
  }

  function Last(values: seq<string>): Option<string> {
    if values == [] then None else Some(values[|values| - 1])
  }

  /** The record a list of items stands for: first real word, words after it, flags anywhere, every
      entity in order, the last value of every other option. */
  predicate Says(c: Coercions, items: seq<Item>, args: ParsedArgs) {
    && SaysWords(items, args)
    && SaysFlags(items, args)
    && args.entities == Values(items, Entity)
    && SaysFields(items, args)
    && SaysCoerced(c, items, args)
  }

  predicate SaysWords(items: seq<Item>, args: ParsedArgs) {
    var words := FromCommand(Words(items));
    if words == [] then args.command == "" && args.positionals == []
    else args.command == words[0] && args.positionals == words[1..]
  }

  predicate SaysFlags(items: seq<Item>, args: ParsedArgs) {
    forall flag: Flag :: FlagOf(args, flag) == HasFlag(items, flag)
  }

  predicate SaysCoerced(c: Coercions, items: seq<Item>, args: ParsedArgs) {
    && args.intervalMs == Coerced(c.interval, Last(Values(items, Interval)))
    && args.port == Coerced(c.port, Last(Values(items, Port)))
    && args.environment == Coerced(EnvironmentOf, Last(Values(items, QbEnv)))
  }

  function Coerced<T>(f: string -> Option<T>, value: Option<string>): Option<T> {
    if value.None? then None else f(value.value)
  }

  predicate SaysFields(items: seq<Item>, args: ParsedArgs) {
    forall field: Field :: FieldOf(args, field) == Last(Values(items, Text(field)))
  }

  function FlagOf(args: ParsedArgs, flag: Flag): bool {
    match flag
    case Full => args.full
    case Help => args.help
    case Version => args.version
    case NoOpen => args.noOpen
  }

  function FieldOf(args: ParsedArgs, field: Field): Option<string> {
    match field
    case Realm => args.realm
    case DataDir => args.dataDir
    case Start => args.start
    case End => args.end
    case Method => args.reportMethod
    case To => args.to
    case ToName => args.toName
    case Line => args.line
  }

  // ---------------------------------------------------------------- one item at a time

  function Take(c: Coercions, args: ParsedArgs, item: Item): ParsedArgs
    requires Allowed(c, item)
  {
    match item
    case Word(word) => AddWord(args, word)
    case FlagItem(flag, _) => SetFlag(args, flag)
    case KeyItem(key, value, _) => SetKey(c, args, key, value).value
  }

  function TakeAll(c: Coercions, args: ParsedArgs, items: seq<Item>): ParsedArgs
    requires AllAllowed(c, items)
    decreases |items|
  {
    if items == [] then args else TakeAll(c, Take(c, args, items[0]), items[1..])
  }

  predicate NoEquals(text: string) { forall ch <- text :: ch != '=' }

  lemma FlagNamesWork(flag: Flag)
    ensures LookUp(FlagName(flag)) == IsFlag(flag)
    ensures Long(FlagName(flag)) && NoEquals(FlagName(flag))
    ensures ShortName(flag).Some? ==>
              LookUp(ShortName(flag).value) == IsFlag(flag)
              && Dashed(ShortName(flag).value) && !Long(ShortName(flag).value)
  {
  }

  lemma KeyNamesWork(key: Key)
    ensures LookUp(KeyName(key)) == IsKey(key)
    ensures Long(KeyName(key)) && NoEquals(KeyName(key))
  {
  }

  lemma NameSplits(name: string, value: string)
    requires Long(name) && NoEquals(name)
    ensures Dashed(name) && NameOf(name) == name && InlineOf(name) == None
    ensures
      var token := name + "=" + value;
      Dashed(token) && NameOf(token) == name && InlineOf(token) == Some(value)
  {
    var token := name + "=" + value;
    assert '=' !in name;
    IndexAfter(name, '=', value);
    assert token[..|name|] == name && token[|name| + 1..] == value;
  }

  lemma ParsesFlag(c: Coercions, token: string, flag: Flag, rest: seq<string>, args: ParsedArgs)
    requires Dashed(token) && LookUp(NameOf(token)) == IsFlag(flag)
    ensures ParseRest(c, [token] + rest, args) == ParseRest(c, rest, SetFlag(args, flag))
  {
    assert ([token] + rest)[0] == token && ([token] + rest)[1..] == rest;
  }

  lemma ParsesKey(c: Coercions, token: string, key: Key, value: string, apart: bool, rest: seq<string>,
                  args: ParsedArgs)
    requires Dashed(token) && LookUp(NameOf(token)) == IsKey(key) && SetKey(c, args, key, value).Ok?
    requires InlineOf(token) == if apart then None else Some(value)
    ensures ParseRest(c, [token] + (if apart then [value] else []) + rest, args) ==
            ParseRest(c, rest, SetKey(c, args, key, value).value)
  {
    var argv := [token] + (if apart then [value] else []) + rest;
    assert argv[0] == token;
    if apart {
      assert argv[1] == value && argv[2..] == rest;
    } else {
      assert argv[1..] == rest;
    }
  }

  /** Parsing a spelled item consumes exactly its spelling. */
  lemma ParsesOne(c: Coercions, item: Item, rest: seq<string>, args: ParsedArgs)
    requires Allowed(c, item)
    ensures ParseRest(c, Spell(item) + rest, args) == ParseRest(c, rest, Take(c, args, item))
  {
    match item
    case Word(word) =>
      assert (Spell(item) + rest)[1..] == rest;
    case FlagItem(flag, look) =>
      FlagNamesWork(flag);
      NameSplits(FlagName(flag), if look.WithJunk? then look.junk else "");
      ParsesFlag(c, Spell(item)[0], flag, rest, args);
    case KeyItem(key, value, spelling) =>
      KeyNamesWork(key);
      NameSplits(KeyName(key), value);
      ParsesKey(c, Spell(item)[0], key, value, spelling == Apart, rest, args);
      assert Spell(item) == [Spell(item)[0]] + if spelling == Apart then [value] else [];
  }

  lemma {:induction false} ParsesSpelled(c: Coercions, items: seq<Item>, rest: seq<string>, args: ParsedArgs)
    requires AllAllowed(c, items)
    ensures ParseRest(c, SpellAll(items) + rest, args) == ParseRest(c, rest, TakeAll(c, args, items))
    decreases |items|
  {
    if items == [] {
      assert SpellAll(items) + rest == rest;
    } else {
      var tail := SpellAll(items[1..]) + rest;
      assert SpellAll(items) + rest == Spell(items[0]) + tail;
      ParsesOne(c, items[0], tail, args);
      ParsesSpelled(c, items[1..], rest, Take(c, args, items[0]));
    }
  }

  // ---------------------------------------------------------------- the fold says what the items say

  lemma {:induction false} WordsSnoc(items: seq<Item>, item: Item)
    ensures Words(items + [item]) == Words(items) + if item.Word? then [item.word] else []
  {
    if items != [] {
      assert (items + [item])[1..] == items[1..] + [item];
      WordsSnoc(items[1..], item);
    } else {
      assert items + [item] == [item];
    }
  }

  lemma {:induction false} ValuesSnoc(items: seq<Item>, item: Item, key: Key)
    ensures Values(items + [item], key) ==
            Values(items, key) + if item.KeyItem? && item.key == key then [item.value] else []
  {
    if items != [] {
      assert (items + [item])[1..] == items[1..] + [item];
      ValuesSnoc(items[1..], item, key);
    } else {
      assert items + [item] == [item];
    }
  }

  lemma {:induction false} FromCommandSnoc(words: seq<string>, word: string)
    ensures FromCommand(words + [word]) ==
            if FromCommand(words) == [] then (if word == "" then [] else [word])
            else FromCommand(words) + [word]
  {
    if words == [] {
      assert words + [word] == [word];
    } else {
      assert (words + [word])[1..] == words[1..] + [word];
      FromCommandSnoc(words[1..], word);
    }
  }

  lemma {:induction false} FromCommandStarts(words: seq<string>)
    ensures FromCommand(words) != [] ==> FromCommand(words)[0] != ""
  {
    if words != [] && words[0] == "" {
      FromCommandStarts(words[1..]);
    }
  }

  lemma FlagSnoc(items: seq<Item>, item: Item, flag: Flag)
    ensures HasFlag(items + [item], flag) <==>
            HasFlag(items, flag) || (item.FlagItem? && item.flag == flag)
  {
    var all := items + [item];
    if HasFlag(items, flag) {
      var i :| 0 <= i < |items| && items[i].FlagItem? && items[i].flag == flag;
      assert all[i] == items[i];
    }
    assert all[|items|] == item;
  }

  /** What one item does to the record, field group by field group. */
  predicate Effect(c: Coercions, args: ParsedArgs, item: Item, next: ParsedArgs) {
    && WordEffect(args, item, next)
    && (forall flag: Flag :: FlagOf(next, flag) == (FlagOf(args, flag) || (item.FlagItem? && item.flag == flag)))
    && next.entities == args.entities + (if Sets(item, Entity) then [item.value] else [])
    && (forall field: Field ::
          FieldOf(next, field) == if Sets(item, Text(field)) then Some(item.value) else FieldOf(args, field))
    && CoercedEffect(c, args, item, next)
  }

  predicate Sets(item: Item, key: Key) {
    item.KeyItem? && item.key == key
  }

  predicate WordEffect(args: ParsedArgs, item: Item, next: ParsedArgs) {
    if item.Word? && args.command == "" then next.command == item.word && next.positionals == args.positionals
    else next.command == args.command
         && next.positionals == args.positionals + if item.Word? then [item.word] else []
  }

  predicate CoercedEffect(c: Coercions, args: ParsedArgs, item: Item, next: ParsedArgs) {
    && next.intervalMs == (if Sets(item, Interval) then c.interval(item.value) else args.intervalMs)
    && next.port == (if Sets(item, Port) then c.port(item.value) else args.port)
    && next.environment == (if Sets(item, QbEnv) then EnvironmentOf(item.value) else args.environment)
  }

  lemma TakesWord(c: Coercions, args: ParsedArgs, word: string)
    ensures Effect(c, args, Word(word), AddWord(args, word))
  {
  }

  lemma TakesFlag(c: Coercions, args: ParsedArgs, flag: Flag, look: FlagSpelling)
    ensures Effect(c, args, FlagItem(flag, look), SetFlag(args, flag))
  {
  }

  lemma TextSets(args: ParsedArgs, field: Field, value: string, other: Field)
    ensures FieldOf(SetText(args, field, value), other) ==
            if other == field then Some(value) else FieldOf(args, other)
  {
  }

  lemma TextFrame(args: ParsedArgs, field: Field, value: string)
    ensures
      var next := SetText(args, field, value);
      && next.command == args.command && next.positionals == args.positionals && next.full == args.full
      && next.entities == args.entities && next.intervalMs == args.intervalMs && next.port == args.port
      && next.environment == args.environment && next.noOpen == args.noOpen && next.help == args.help
      && next.version == args.version
  {
  }

  lemma TakesText(c: Coercions, args: ParsedArgs, field: Field, value: string, spelling: Spelling, next: ParsedArgs)
    requires next == SetText(args, field, value)
    ensures Effect(c, args, KeyItem(Text(field), value, spelling), next)
  {
    TextFrame(args, field, value);
    assert next.entities == args.entities + [];
    assert next.positionals == args.positionals + [];
    assert forall flag: Flag :: FlagOf(next, flag) == FlagOf(args, flag);
    forall other: Field
      ensures FieldOf(next, other) == if other == field then Some(value) else FieldOf(args, other)
    {
      TextSets(args, field, value, other);
    }
  }

  lemma TakesKey(c: Coercions, args: ParsedArgs, key: Key, value: string, spelling: Spelling)
    requires !key.Text? && Accepts(c, key, value)
    ensures Effect(c, args, KeyItem(key, value, spelling), SetKey(c, args, key, value).value)
  {
    var next := SetKey(c, args, key, value).value;
    assert next.positionals == args.positionals + [];
    assert forall flag: Flag :: FlagOf(next, flag) == FlagOf(args, flag);
    assert forall field: Field :: FieldOf(next, field) == FieldOf(args, field);
  }

  lemma TakeEffect(c: Coercions, args: ParsedArgs, item: Item)
    requires Allowed(c, item)
    ensures Effect(c, args, item, Take(c, args, item))
  {
    match item
    case Word(word) => TakesWord(c, args, word);
    case FlagItem(flag, look) => TakesFlag(c, args, flag, look);
    case KeyItem(key, value, spelling) =>
      if key.Text? {
        TakesText(c, args, key.field, value, spelling, SetText(args, key.field, value));
      } else {
        TakesKey(c, args, key, value, spelling);
      }
  }

  lemma WordsTake(items: seq<Item>, args: ParsedArgs, item: Item, next: ParsedArgs)
    requires WordEffect(args, item, next) && SaysWords(items, args)
    ensures SaysWords(items + [item], next)
  {
    WordsSnoc(items, item);
    FromCommandStarts(Words(items));
    if item.Word? {
      FromCommandSnoc(Words(items), item.word);
    } else {
      assert Words(items + [item]) == Words(items);
    }
  }

  lemma CoercedTake(c: Coercions, items: seq<Item>, args: ParsedArgs, item: Item, next: ParsedArgs)
    requires CoercedEffect(c, args, item, next) && SaysCoerced(c, items, args)
    ensures SaysCoerced(c, items + [item], next)
  {
    ValuesSnoc(items, item, Interval);
    ValuesSnoc(items, item, Port);
    ValuesSnoc(items, item, QbEnv);
  }

  lemma SaysTake(c: Coercions, items: seq<Item>, args: ParsedArgs, item: Item, next: ParsedArgs)
    requires Effect(c, args, item, next) && Says(c, items, args)
    ensures Says(c, items + [item], next)
  {
    WordsTake(items, args, item, next);
    CoercedTake(c, items, args, item, next);
    ValuesSnoc(items, item, Entity);
    forall flag: Flag ensures FlagOf(next, flag) == HasFlag(items + [item], flag) {
      FlagSnoc(items, item, flag);
      assert FlagOf(args, flag) == HasFlag(items, flag);
    }
    forall field: Field ensures FieldOf(next, field) == Last(Values(items + [item], Text(field))) {
      ValuesSnoc(items, item, Text(field));
      assert FieldOf(args, field) == Last(Values(items, Text(field)));
    }
  }

  lemma {:induction false} TakeAllSays(c: Coercions, before: seq<Item>, items: seq<Item>, args: ParsedArgs)
    requires AllAllowed(c, items) && Says(c, before, args)
    ensures Says(c, before + items, TakeAll(c, args, items))
    decreases |items|
  {
    if items == [] {
      assert before + items == before;
    } else {
      var item := items[0];
      TakeEffect(c, args, item);
      SaysTake(c, before, args, item, Take(c, args, item));
      TakeAllSays(c, before + [item], items[1..], Take(c, args, item));
      assert before + items == before + [item] + items[1..];
    }
  }

  lemma SameFields(a: ParsedArgs, b: ParsedArgs)
    requires forall field: Field :: FieldOf(a, field) == FieldOf(b, field)
    ensures a.realm == b.realm && a.dataDir == b.dataDir && a.start == b.start && a.end == b.end
    ensures a.reportMethod == b.reportMethod && a.to == b.to && a.toName == b.toName && a.line == b.line
  {
    assert FieldOf(a, Realm) == FieldOf(b, Realm) && FieldOf(a, DataDir) == FieldOf(b, DataDir);
    assert FieldOf(a, Start) == FieldOf(b, Start) && FieldOf(a, End) == FieldOf(b, End);
    assert FieldOf(a, Method) == FieldOf(b, Method) && FieldOf(a, To) == FieldOf(b, To);
    assert FieldOf(a, ToName) == FieldOf(b, ToName) && FieldOf(a, Line) == FieldOf(b, Line);
  }

  lemma SameFlags(a: ParsedArgs, b: ParsedArgs)
    requires forall flag: Flag :: FlagOf(a, flag) == FlagOf(b, flag)
    ensures a.full == b.full && a.help == b.help && a.version == b.version && a.noOpen == b.noOpen
  {
    assert FlagOf(a, Full) == FlagOf(b, Full) && FlagOf(a, Help) == FlagOf(b, Help);
    assert FlagOf(a, Version) == FlagOf(b, Version) && FlagOf(a, NoOpen) == FlagOf(b, NoOpen);
  }

  /** A record is determined by what is said of it. */
  lemma SaysOnce(c: Coercions, items: seq<Item>, a: ParsedArgs, b: ParsedArgs)
    requires Says(c, items, a) && Says(c, items, b)
    ensures a == b
  {
    forall field: Field ensures FieldOf(a, field) == FieldOf(b, field) {
      assert FieldOf(a, field) == Last(Values(items, Text(field)));
    }
    forall flag: Flag ensures FlagOf(a, flag) == FlagOf(b, flag) {
      assert FlagOf(a, flag) == HasFlag(items, flag);
    }
    SameFields(a, b);
    SameFlags(a, b);
  }

  /** Print, then parse: every list of allowed items, in any order and any spelling, comes back as the
      record it stands for. */
  lemma PrintedItemsParse(c: Coercions, items: seq<Item>)
    requires AllAllowed(c, items)
    ensures Parse(c, SpellAll(items)).Ok?
    ensures Says(c, items, Parse(c, SpellAll(items)).value)
  {
    ParsesSpelled(c, items, [], EMPTY);
    assert SpellAll(items) + [] == SpellAll(items);
    assert Says(c, [], EMPTY);
    TakeAllSays(c, [], items, EMPTY);
    assert [] + items == items;
  }

  // ---------------------------------------------------------------- reading an argument vector

  function ReadToken(token: string): Option<Item>
    requires Dashed(token) && (LookUp(NameOf(token)).IsFlag? || InlineOf(token).Some?)
  {
    match LookUp(NameOf(token))
    case IsUnknown => None
    case IsKey(key) =>
      if InlineOf(token).None? then None else Some(KeyItem(key, InlineOf(token).value, Inline))
    case IsFlag(flag) =>
      Some(FlagItem(flag, if InlineOf(token).Some? then WithJunk(InlineOf(token).value)
                          else if NameOf(token) == FlagName(flag) then Plain else Short))
  }

  /** What stops the parser in front of `rest`, and with which error. */
  ghost predicate Offends(c: Coercions, rest: seq<string>, error: CliError) {
    match error
    case UnknownOption(name) =>
      |rest| > 0 && Dashed(rest[0]) && NameOf(rest[0]) == name
      && (forall flag :: name != FlagName(flag) && Some(name) != ShortName(flag))
      && (forall key :: name != KeyName(key))
    case NeedsValue(name) => rest == [name] && exists key :: KeyName(key) == name
    case BadValue(key, value) =>
      !Accepts(c, key, value)
      && exists spelling :: Spell(KeyItem(key, value, spelling)) <= rest
  }

  lemma LookUpNames(name: string)
    ensures LookUp(name).IsKey? ==> name == KeyName(LookUp(name).key)
    ensures LookUp(name).IsFlag? ==>
              name == FlagName(LookUp(name).flag) || Some(name) == ShortName(LookUp(name).flag)
    ensures LookUp(name).IsUnknown? ==>
              (forall flag :: name != FlagName(flag) && Some(name) != ShortName(flag))
              && (forall key :: name != KeyName(key))
  {
    forall flag ensures name == FlagName(flag) || Some(name) == ShortName(flag) ==> LookUp(name) == IsFlag(flag) {
      FlagNamesWork(flag);
    }
    forall key ensures name == KeyName(key) ==> LookUp(name) == IsKey(key) {
      KeyNamesWork(key);
    }
  }

  lemma TokenRejoins(token: string)
    ensures InlineOf(token).Some? ==> token == NameOf(token) + "=" + InlineOf(token).value && Long(NameOf(token))
    ensures InlineOf(token).None? ==> NameOf(token) == token
  {
    var eq := EqualsAt(token);
    if eq != -1 {
      assert token[eq] == '=' && token[0] == '-' && token[1] == '-';
      assert token == token[..eq] + [token[eq]] + token[eq + 1..];
      assert token[..eq][..2] == token[..2];
    }
  }

  /** The longest list of allowed items the vector starts with, and the rest. */
  function Read(c: Coercions, argv: seq<string>): (r: (seq<Item>, seq<string>))
    decreases |argv|
  {
    if argv == [] then ([], [])
    else
      var item := ReadItem(c, argv);
      if item.None? then ([], argv)
      else
        var rest := Read(c, argv[|Spell(item.value)|..]);
        ([item.value] + rest.0, rest.1)
  }

  function ReadItem(c: Coercions, argv: seq<string>): (r: Option<Item>)
    requires argv != []
    ensures r.Some? ==> Allowed(c, r.value) && 1 <= |Spell(r.value)| && Spell(r.value) <= argv
  {
    var token := argv[0];
    var item :=
      if !Dashed(token) then Some(Word(token))
      else if LookUp(NameOf(token)).IsKey? && InlineOf(token).None? then
        if |argv| > 1 then Some(KeyItem(LookUp(NameOf(token)).key, argv[1], Apart)) else None
      else if LookUp(NameOf(token)).IsUnknown? then None
      else ReadToken(token);
    if item.Some? && Allowed(c, item.value) then
      LookUpNames(NameOf(token));
      TokenRejoins(token);
      item
    else None
  }

  lemma StopsAtOffence(c: Coercions, argv: seq<string>, args: ParsedArgs)
    requires argv != [] && ReadItem(c, argv).None?
    ensures ParseRest(c, argv, args).Err? && Offends(c, argv, ParseRest(c, argv, args).error)
  {
    var token := argv[0];
    var name := NameOf(token);
    LookUpNames(name);
    TokenRejoins(token);
    match LookUp(name)
    case IsUnknown =>
    case IsFlag(flag) =>
    case IsKey(key) =>
      if InlineOf(token).Some? {
        assert Spell(KeyItem(key, InlineOf(token).value, Inline)) <= argv;
      } else if |argv| > 1 {
        assert Spell(KeyItem(key, argv[1], Apart)) <= argv;
      }
  }

  lemma SpellAllCons(c: Coercions, item: Item, items: seq<Item>)
    requires Allowed(c, item) && AllAllowed(c, items)
    ensures AllAllowed(c, [item] + items) && SpellAll([item] + items) == Spell(item) + SpellAll(items)
  {
    assert ([item] + items)[1..] == items;
  }

  lemma JoinsBack(head: seq<string>, tail: seq<string>, rest: seq<string>, argv: seq<string>)
    requires head <= argv && tail + rest == argv[|head|..]
    ensures head + tail + rest == argv
  {
    assert head + (tail + rest) == argv;
  }

  lemma PutsBack(c: Coercions, item: Item, items: seq<Item>, rest: seq<string>, argv: seq<string>)
    requires Allowed(c, item) && AllAllowed(c, items)
    requires Spell(item) <= argv && SpellAll(items) + rest == argv[|Spell(item)|..]
    ensures AllAllowed(c, [item] + items) && SpellAll([item] + items) + rest == argv
  {
    SpellAllCons(c, item, items);
    JoinsBack(Spell(item), SpellAll(items), rest, argv);
  }

  lemma {:induction false} ReadRejoins(c: Coercions, argv: seq<string>)
    ensures
      var r := Read(c, argv);
      && AllAllowed(c, r.0) && SpellAll(r.0) + r.1 == argv
      && (r.1 != [] ==> ReadItem(c, r.1).None?)
    decreases |argv|
  {
    if argv == [] || ReadItem(c, argv).None? {
      assert SpellAll([]) + argv == argv;
    } else {
      var item := ReadItem(c, argv).value;
      var after := argv[|Spell(item)|..];
      ReadRejoins(c, after);
      PutsBack(c, item, Read(c, after).0, Read(c, after).1, argv);
    }
  }

  /** The parser and the grammar agree on every vector: a vector that parses is the spelling of allowed
      items that say exactly the result; one that does not spells allowed items up to the first token
      that offends, and the error names that offence. */
  lemma ParsesExactlyTheGrammar(c: Coercions, argv: seq<string>)
    ensures
      var (items, rest) := Read(c, argv);
      && AllAllowed(c, items) && argv == SpellAll(items) + rest
      && (Parse(c, argv).Ok? <==> rest == [])
      && (Parse(c, argv).Ok? ==> Says(c, items, Parse(c, argv).value))
      && (Parse(c, argv).Err? ==> Offends(c, rest, Parse(c, argv).error))
  {
    ReadRejoins(c, argv);
    var (items, rest) := Read(c, argv);
    ParsesSpelled(c, items, rest, EMPTY);
    if rest == [] {
      PrintedItemsParse(c, items);
      assert SpellAll(items) + [] == SpellAll(items);
    } else {
      StopsAtOffence(c, rest, TakeAll(c, EMPTY, items));
    }
  }

  // ---------------------------------------------------------------- spellings and records

  function Respell(item: Item): Item {
    match item
    case Word(_) => item
    case FlagItem(flag, _) => FlagItem(flag, Plain)
    case KeyItem(key, value, _) => KeyItem(key, value, Apart)
  }

  predicate SameButSpelling(a: seq<Item>, b: seq<Item>) {
    |a| == |b| && forall i :: 0 <= i < |a| ==> Respell(a[i]) == Respell(b[i])
  }

  lemma {:induction false} SpellingIsIgnored(c: Coercions, a: seq<Item>, b: seq<Item>, args: ParsedArgs)
    requires AllAllowed(c, a) && AllAllowed(c, b) && SameButSpelling(a, b)
    ensures TakeAll(c, args, a) == TakeAll(c, args, b)
    decreases |a|
  {
    if a != [] {
      assert Respell(a[0]) == Respell(b[0]);
      assert Take(c, args, a[0]) == Take(c, args, b[0]);
      assert SameButSpelling(a[1..], b[1..]) by {
        forall i | 0 <= i < |a| - 1 ensures Respell(a[1..][i]) == Respell(b[1..][i]) {
          assert Respell(a[i + 1]) == Respell(b[i + 1]);
        }
      }
      SpellingIsIgnored(c, a[1..], b[1..], Take(c, args, a[0]));
    }
  }

  /** `--key=value` and `--key value`, `-h` and `--help`, are interchangeable anywhere, even in front of
      a token that does not parse. */
  lemma SpellingsParseAlike(c: Coercions, a: seq<Item>, b: seq<Item>, rest: seq<string>)
    requires AllAllowed(c, a) && AllAllowed(c, b) && SameButSpelling(a, b)
    ensures Parse(c, SpellAll(a) + rest) == Parse(c, SpellAll(b) + rest)
  {
    ParsesSpelled(c, a, rest, EMPTY);
    ParsesSpelled(c, b, rest, EMPTY);
    SpellingIsIgnored(c, a, b, EMPTY);
  }

  /** A record a command line can produce. */
  predicate WellFormed(args: ParsedArgs) {
    && !Dashed(args.command)
    && (args.command == "" ==> args.positionals == [])
    && forall i :: 0 <= i < |args.positionals| ==> !Dashed(args.positionals[i])
  }

  /** Texts that the library coercions read as the record's interval and port. */
  predicate TextsFit(c: Coercions, args: ParsedArgs, interval: string, port: string) {
    && (args.intervalMs.Some? ==> c.interval(interval) == args.intervalMs)
    && (args.port.Some? ==> c.port(port) == args.port)
  }

  function EnvironmentName(environment: Environment): string {
    match environment
    case Sandbox => "sandbox"
    case Production => "production"
  }

  function WordItems(words: seq<string>): seq<Item> {
    seq(|words|, i requires 0 <= i < |words| => Word(words[i]))
  }

  function EntityItems(values: seq<string>, spelling: Spelling): seq<Item> {
    seq(|values|, i requires 0 <= i < |values| => KeyItem(Entity, values[i], spelling))
  }

  function FlagItems(flag: Flag, on: bool): seq<Item> {
    if on then [FlagItem(flag, Plain)] else []
  }

  function OptionItems(key: Key, value: Option<string>, spelling: Spelling): seq<Item> {
    if value.None? then [] else [KeyItem(key, value.value, spelling)]
  }

  const FIELDS: seq<Field> := [Realm, DataDir, Start, End, Method, To, ToName, Line]

  function FieldItems(args: ParsedArgs, fields: seq<Field>, spelling: Spelling): seq<Item> {
    if fields == [] then []
    else OptionItems(Text(fields[0]), FieldOf(args, fields[0]), spelling) + FieldItems(args, fields[1..], spelling)
  }

  function WordPart(args: ParsedArgs): seq<Item> {
    WordItems(CommandWords(args))
  }

  function FlagPart(args: ParsedArgs): seq<Item> {
    FlagItems(Full, args.full) + FlagItems(Help, args.help) + FlagItems(Version, args.version)
    + FlagItems(NoOpen, args.noOpen)
  }

  function CoercedPart(args: ParsedArgs, interval: string, port: string, spelling: Spelling): seq<Item> {
    OptionItems(Interval, if args.intervalMs.Some? then Some(interval) else None, spelling)
    + OptionItems(Port, if args.port.Some? then Some(port) else None, spelling)
    + OptionItems(QbEnv, if args.environment.Some? then Some(EnvironmentName(args.environment.value)) else None,
                  spelling)
  }

  /** A command line for a record. */
  function Describe(args: ParsedArgs, interval: string, port: string, spelling: Spelling): seq<Item> {
    WordPart(args)
    + (FlagPart(args)
       + (EntityItems(args.entities, spelling)
          + (FieldItems(args, FIELDS, spelling) + CoercedPart(args, interval, port, spelling))))
  }

  lemma Regroup(a: seq<string>, b: seq<string>, c: seq<string>)
    ensures a + (b + c) == a + b + c
  {
  }

  lemma {:induction false} WordsConcat(a: seq<Item>, b: seq<Item>)
    ensures Words(a + b) == Words(a) + Words(b)
  {
    if a == [] {
      assert a + b == b;
    } else {
      assert (a + b)[0] == a[0] && (a + b)[1..] == a[1..] + b;
      WordsConcat(a[1..], b);
      Regroup(if a[0].Word? then [a[0].word] else [], Words(a[1..]), Words(b));
    }
  }

  lemma {:induction false} ValuesConcat(a: seq<Item>, b: seq<Item>, key: Key)
    ensures Values(a + b, key) == Values(a, key) + Values(b, key)
  {
    if a == [] {
      assert a + b == b;
    } else {
      assert (a + b)[0] == a[0] && (a + b)[1..] == a[1..] + b;
      ValuesConcat(a[1..], b, key);
      Regroup(if Sets(a[0], key) then [a[0].value] else [], Values(a[1..], key), Values(b, key));
    }
  }

  lemma FlagConcat(a: seq<Item>, b: seq<Item>, flag: Flag)
    ensures HasFlag(a + b, flag) <==> HasFlag(a, flag) || HasFlag(b, flag)
  {
    var all := a + b;
    if HasFlag(a, flag) {
      var i :| 0 <= i < |a| && a[i].FlagItem? && a[i].flag == flag;
      assert all[i] == a[i];
    }
    if HasFlag(b, flag) {
      var i :| 0 <= i < |b| && b[i].FlagItem? && b[i].flag == flag;
      assert all[|a| + i] == b[i];
    }
  }

  /** What one stretch of items contributes: its words, its flags and its values. */
  predicate Contributes(items: seq<Item>, words: seq<string>, flags: set<Flag>, key: Key, values: seq<string>) {
    Words(items) == words && (forall flag :: HasFlag(items, flag) == (flag in flags)) && Values(items, key) == values
  }

  lemma ContributesConcat(a: seq<Item>, b: seq<Item>, w: seq<string>, x: seq<string>, f: set<Flag>,
                          g: set<Flag>, key: Key, v: seq<string>, u: seq<string>)
    requires Contributes(a, w, f, key, v) && Contributes(b, x, g, key, u)
    ensures Contributes(a + b, w + x, f + g, key, v + u)
  {
    WordsConcat(a, b);
    ValuesConcat(a, b, key);
    forall flag ensures HasFlag(a + b, flag) == (flag in f + g) {
      FlagConcat(a, b, flag);
    }
  }

  lemma {:induction false} WordItemsGive(words: seq<string>, key: Key)
    ensures Contributes(WordItems(words), words, {}, key, [])
  {
    if words != [] {
      assert WordItems(words)[1..] == WordItems(words[1..]);
      WordItemsGive(words[1..], key);
      assert words == [words[0]] + words[1..];
    }
  }

  lemma {:induction false} EntityItemsGive(values: seq<string>, spelling: Spelling, key: Key)
    ensures Contributes(EntityItems(values, spelling), [], {}, key, if key == Entity then values else [])
  {
    if values != [] {
      assert EntityItems(values, spelling)[1..] == EntityItems(values[1..], spelling);
      EntityItemsGive(values[1..], spelling, key);
      assert values == [values[0]] + values[1..];
    }
  }

  lemma OneItem(item: Item, key: Key, flag: Flag)
    ensures Words([item]) == if item.Word? then [item.word] else []
    ensures Values([item], key) == if Sets(item, key) then [item.value] else []
    ensures HasFlag([item], flag) <==> item.FlagItem? && item.flag == flag
  {
    var items := [item];
    assert items[0] == item && items[1..] == [];
    assert Words(items[1..]) == [] && Values(items[1..], key) == [];
  }

  lemma FlagItemsGive(flag: Flag, on: bool, key: Key)
    ensures Contributes(FlagItems(flag, on), [], if on then {flag} else {}, key, [])
  {
    if on {
      forall other ensures HasFlag(FlagItems(flag, on), other) == (other == flag) {
        OneItem(FlagItem(flag, Plain), key, other);
      }
      OneItem(FlagItem(flag, Plain), key, flag);
    }
  }

  function Flags(args: ParsedArgs): set<Flag> {
    (if args.full then {Full} else {}) + (if args.help then {Help} else {})
    + (if args.version then {Version} else {}) + (if args.noOpen then {NoOpen} else {})
  }

  lemma FlagPartGives(args: ParsedArgs, key: Key)
    ensures Contributes(FlagPart(args), [], Flags(args), key, [])
  {
    FlagItemsGive(Full, args.full, key);
    FlagItemsGive(Help, args.help, key);
    FlagItemsGive(Version, args.version, key);
    FlagItemsGive(NoOpen, args.noOpen, key);
    var full, help := FlagItems(Full, args.full), FlagItems(Help, args.help);
    var one: set<Flag> := if args.full then {Full} else {};
    var two: set<Flag> := if args.help then {Help} else {};
    var three: set<Flag> := if args.version then {Version} else {};
    var four: set<Flag> := if args.noOpen then {NoOpen} else {};
    ContributesConcat(full, help, [], [], one, two, key, [], []);
    ContributesConcat(full + help, FlagItems(Version, args.version), [], [], one + two, three, key, [], []);
    ContributesConcat(full + help + FlagItems(Version, args.version), FlagItems(NoOpen, args.noOpen),
                      [], [], one + two + three, four, key, [], []);
  }

  function ValueOf(value: Option<string>): seq<string> {
    if value.None? then [] else [value.value]
  }

  lemma OptionItemsGive(of: Key, value: Option<string>, spelling: Spelling, key: Key)
    ensures Contributes(OptionItems(of, value, spelling), [], {}, key, if of == key then ValueOf(value) else [])
  {
    if value.Some? {
      var item := KeyItem(of, value.value, spelling);
      OneItem(item, key, Full);
      forall flag ensures !HasFlag([item], flag) {
        OneItem(item, key, flag);
      }
    }
  }

  lemma {:induction false} FieldItemsGive(args: ParsedArgs, fields: seq<Field>, spelling: Spelling, key: Key)
    requires forall i, j :: 0 <= i < j < |fields| ==> fields[i] != fields[j]
    ensures Contributes(FieldItems(args, fields, spelling), [], {}, key,
                        if key.Text? && key.field in fields then ValueOf(FieldOf(args, key.field)) else [])
    decreases |fields|
  {
    if fields != [] {
      FieldItemsGive(args, fields[1..], spelling, key);
      var first := fields[0];
      OptionItemsGive(Text(first), FieldOf(args, first), spelling, key);
      var others := fields[1..];
      assert fields == [first] + others && first !in others;
      ContributesConcat(OptionItems(Text(first), FieldOf(args, first), spelling),
                        FieldItems(args, others, spelling), [], [], {}, {}, key,
                        if Text(first) == key then ValueOf(FieldOf(args, first)) else [],
                        if key.Text? && key.field in others then ValueOf(FieldOf(args, key.field)) else []);
    }
  }

  function CoercedValues(args: ParsedArgs, interval: string, port: string, key: Key): seq<string> {
    match key
    case Interval => if args.intervalMs.Some? then [interval] else []
    case Port => if args.port.Some? then [port] else []
    case QbEnv => if args.environment.Some? then [EnvironmentName(args.environment.value)] else []
    case _ => []
  }

  lemma CoercedPartGives(args: ParsedArgs, interval: string, port: string, spelling: Spelling, key: Key)
    ensures Contributes(CoercedPart(args, interval, port, spelling), [], {}, key,
                        CoercedValues(args, interval, port, key))
  {
    var i := if args.intervalMs.Some? then Some(interval) else None;
    var p := if args.port.Some? then Some(port) else None;
    var e := if args.environment.Some? then Some(EnvironmentName(args.environment.value)) else None;
    OptionItemsGive(Interval, i, spelling, key);
    OptionItemsGive(Port, p, spelling, key);
    OptionItemsGive(QbEnv, e, spelling, key);
    var vi := if Interval == key then ValueOf(i) else [];
    var vp := if Port == key then ValueOf(p) else [];
    var ve := if QbEnv == key then ValueOf(e) else [];
    var none: set<Flag> := {};
    NoneAndNone();
    ContributesConcat(OptionItems(Interval, i, spelling), OptionItems(Port, p, spelling), [], [], none, none, key,
                      vi, vp);
    ContributesConcat(OptionItems(Interval, i, spelling) + OptionItems(Port, p, spelling),
                      OptionItems(QbEnv, e, spelling), [], [], none, none, key, vi + vp, ve);
    CoercedValuesAre(args, interval, port, key);
  }

  lemma NoneAndNone()
    ensures var none: set<Flag> := {}; none + none == none
    ensures var empty: seq<string> := []; empty + empty == empty
  {
  }

  lemma CoercedValuesAre(args: ParsedArgs, interval: string, port: string, key: Key)
    ensures
      CoercedValues(args, interval, port, key) ==
      (if Interval == key && args.intervalMs.Some? then [interval] else [])
      + (if Port == key && args.port.Some? then [port] else [])
      + (if QbEnv == key && args.environment.Some? then [EnvironmentName(args.environment.value)] else [])
  {
  }

  lemma AllFields(field: Field)
    ensures field in FIELDS
  {
    assert FIELDS[0] == Realm && FIELDS[1] == DataDir && FIELDS[2] == Start && FIELDS[3] == End;
    assert FIELDS[4] == Method && FIELDS[5] == To && FIELDS[6] == ToName && FIELDS[7] == Line;
  }

  function ValuesSaid(args: ParsedArgs, interval: string, port: string, key: Key): seq<string> {
    match key
    case Entity => args.entities
    case Text(field) => ValueOf(FieldOf(args, field))
    case _ => CoercedValues(args, interval, port, key)
  }

  lemma ContributesBoth(a: seq<Item>, b: seq<Item>, key: Key, v: seq<string>, u: seq<string>, all: seq<string>)
    requires Contributes(a, [], {}, key, v) && Contributes(b, [], {}, key, u) && v + u == all
    ensures Contributes(a + b, [], {}, key, all)
  {
    var none: set<Flag> := {};
    NoneAndNone();
    ContributesConcat(a, b, [], [], none, none, key, v, u);
  }

  lemma FieldsGive(args: ParsedArgs, spelling: Spelling, key: Key)
    ensures Contributes(FieldItems(args, FIELDS, spelling), [], {}, key,
                        if key.Text? then ValueOf(FieldOf(args, key.field)) else [])
  {
    FieldItemsGive(args, FIELDS, spelling, key);
    if key.Text? {
      AllFields(key.field);
    }
  }

  lemma ValuesSaidSplit(args: ParsedArgs, interval: string, port: string, key: Key)
    ensures (if key.Text? then ValueOf(FieldOf(args, key.field)) else []) + CoercedValues(args, interval, port, key) ==
            if key == Entity then [] else ValuesSaid(args, interval, port, key)
  {
    if key.Text? {
      assert CoercedValues(args, interval, port, key) == [];
    }
  }

  lemma ValuedGives(args: ParsedArgs, interval: string, port: string, spelling: Spelling, key: Key)
    ensures Contributes(FieldItems(args, FIELDS, spelling) + CoercedPart(args, interval, port, spelling), [], {},
                        key, if key == Entity then [] else ValuesSaid(args, interval, port, key))
  {
    FieldsGive(args, spelling, key);
    CoercedPartGives(args, interval, port, spelling, key);
    ValuesSaidSplit(args, interval, port, key);
    ContributesBoth(FieldItems(args, FIELDS, spelling), CoercedPart(args, interval, port, spelling), key,
                    if key.Text? then ValueOf(FieldOf(args, key.field)) else [],
                    CoercedValues(args, interval, port, key),
                    if key == Entity then [] else ValuesSaid(args, interval, port, key));
  }

  lemma DescribeGives(args: ParsedArgs, interval: string, port: string, spelling: Spelling, key: Key)
    ensures Contributes(Describe(args, interval, port, spelling),
                        CommandWords(args), Flags(args), key,
                        ValuesSaid(args, interval, port, key))
  {
    var words := CommandWords(args);
    var entities := EntityItems(args.entities, spelling);
    var valued := FieldItems(args, FIELDS, spelling) + CoercedPart(args, interval, port, spelling);
    WordItemsGive(words, key);
    FlagPartGives(args, key);
    EntityItemsGive(args.entities, spelling, key);
    ValuedGives(args, interval, port, spelling, key);
    var ve := if key == Entity then args.entities else [];
    var vo := if key == Entity then [] else ValuesSaid(args, interval, port, key);
    ContributesConcat(entities, valued, [], [], {}, {}, key, ve, vo);
    ContributesConcat(FlagPart(args), entities + valued, [], [], Flags(args), {}, key, [], ve + vo);
    ContributesConcat(WordPart(args), FlagPart(args) + (entities + valued), words, [], {}, Flags(args), key,
                      [], [] + (ve + vo));
    assert [] + ([] + (ve + vo)) == ValuesSaid(args, interval, port, key);
  }

  function CommandWords(args: ParsedArgs): seq<string> {
    if args.command == "" then [] else [args.command] + args.positionals
  }

  lemma ContributedSays(c: Coercions, items: seq<Item>, args: ParsedArgs, interval: string, port: string)
    requires WellFormed(args) && TextsFit(c, args, interval, port)
    requires Words(items) == CommandWords(args)
    requires forall flag :: HasFlag(items, flag) == (flag in Flags(args))
    requires forall key :: Values(items, key) == ValuesSaid(args, interval, port, key)
    ensures Says(c, items, args)
  {
    assert Values(items, Entity) == ValuesSaid(args, interval, port, Entity);
    CoercedFits(c, items, args, interval, port);
    forall field: Field ensures FieldOf(args, field) == Last(Values(items, Text(field))) {
      assert Values(items, Text(field)) == ValuesSaid(args, interval, port, Text(field));
    }
    forall flag: Flag ensures FlagOf(args, flag) == HasFlag(items, flag) {
      assert HasFlag(items, flag) == (flag in Flags(args));
    }
  }

  lemma CoercedFits(c: Coercions, items: seq<Item>, args: ParsedArgs, interval: string, port: string)
    requires TextsFit(c, args, interval, port)
    requires forall key :: Values(items, key) == ValuesSaid(args, interval, port, key)
    ensures SaysCoerced(c, items, args)
  {
    assert Values(items, Interval) == ValuesSaid(args, interval, port, Interval);
    assert Values(items, Port) == ValuesSaid(args, interval, port, Port);
    assert Values(items, QbEnv) == ValuesSaid(args, interval, port, QbEnv);
  }

  lemma DescribeSays(c: Coercions, args: ParsedArgs, interval: string, port: string, spelling: Spelling)
    requires WellFormed(args) && TextsFit(c, args, interval, port)
    ensures Says(c, Describe(args, interval, port, spelling), args)
  {
    var items := Describe(args, interval, port, spelling);
    forall key ensures Contributes(items, CommandWords(args), Flags(args), key, ValuesSaid(args, interval, port, key)) {
      DescribeGives(args, interval, port, spelling, key);
    }
    DescribeGives(args, interval, port, spelling, Entity);
    ContributedSays(c, items, args, interval, port);
  }

  lemma {:induction false} FieldItemsAllowed(c: Coercions, args: ParsedArgs, fields: seq<Field>, spelling: Spelling)
    ensures AllAllowed(c, FieldItems(args, fields, spelling))
  {
    if fields != [] {
      FieldItemsAllowed(c, args, fields[1..], spelling);
    }
  }

  lemma WordPartAllowed(c: Coercions, args: ParsedArgs)
    requires WellFormed(args)
    ensures AllAllowed(c, WordPart(args))
  {
    forall word | word in CommandWords(args) ensures !Dashed(word) {
      if word != args.command {
        var i :| 0 <= i < |args.positionals| && args.positionals[i] == word;
      }
    }
    forall i | 0 <= i < |WordPart(args)| ensures Allowed(c, WordPart(args)[i]) {
      assert CommandWords(args)[i] in CommandWords(args);
    }
  }

  lemma OptionAllowed(c: Coercions, key: Key, value: Option<string>, spelling: Spelling)
    requires value.Some? ==> Accepts(c, key, value.value)
    ensures AllAllowed(c, OptionItems(key, value, spelling))
  {
  }

  lemma CoercedPartAllowed(c: Coercions, args: ParsedArgs, interval: string, port: string, spelling: Spelling)
    requires TextsFit(c, args, interval, port)
    ensures AllAllowed(c, CoercedPart(args, interval, port, spelling))
  {
    OptionAllowed(c, Interval, if args.intervalMs.Some? then Some(interval) else None, spelling);
    OptionAllowed(c, Port, if args.port.Some? then Some(port) else None, spelling);
    OptionAllowed(c, QbEnv, if args.environment.Some? then Some(EnvironmentName(args.environment.value)) else None,
                  spelling);
  }

  lemma DescribeAllowed(c: Coercions, args: ParsedArgs, interval: string, port: string, spelling: Spelling)
    requires WellFormed(args) && TextsFit(c, args, interval, port)
    ensures AllAllowed(c, Describe(args, interval, port, spelling))
  {
    var fields, coerced := FieldItems(args, FIELDS, spelling), CoercedPart(args, interval, port, spelling);
    var entities := EntityItems(args.entities, spelling);
    FieldItemsAllowed(c, args, FIELDS, spelling);
    WordPartAllowed(c, args);
    CoercedPartAllowed(c, args, interval, port, spelling);
    AllowedConcat(c, fields, coerced);
    AllowedConcat(c, entities, fields + coerced);
    FlagPartAllowed(c, args);
    AllowedConcat(c, FlagPart(args), entities + (fields + coerced));
    AllowedConcat(c, WordPart(args), FlagPart(args) + (entities + (fields + coerced)));
  }

  lemma FlagPartAllowed(c: Coercions, args: ParsedArgs)
    ensures AllAllowed(c, FlagPart(args))
  {
    AllowedConcat(c, FlagItems(Full, args.full), FlagItems(Help, args.help));
    AllowedConcat(c, FlagItems(Full, args.full) + FlagItems(Help, args.help), FlagItems(Version, args.version));
    AllowedConcat(c, FlagItems(Full, args.full) + FlagItems(Help, args.help) + FlagItems(Version, args.version),
                  FlagItems(NoOpen, args.noOpen));
  }

  lemma AllowedConcat(c: Coercions, a: seq<Item>, b: seq<Item>)
    requires AllAllowed(c, a) && AllAllowed(c, b)
    ensures AllAllowed(c, a + b)
  {
  }

  /** Every well-formed record, printed with either value spelling, parses back to itself. */
  lemma RecordsComeBack(c: Coercions, args: ParsedArgs, interval: string, port: string, spelling: Spelling)
    requires WellFormed(args) && TextsFit(c, args, interval, port)
    ensures Parse(c, SpellAll(Describe(args, interval, port, spelling))) == Ok(args)
  {
    var items := Describe(args, interval, port, spelling);
    DescribeAllowed(c, args, interval, port, spelling);
    DescribeSays(c, args, interval, port, spelling);
    PrintedItemsParse(c, items);
    SaysOnce(c, items, args, Parse(c, SpellAll(items)).value);
  }

  /** And what parses is well formed: the grammar's records are exactly the records that come back. */
  lemma ParsedIsWellFormed(c: Coercions, argv: seq<string>)
    requires Parse(c, argv).Ok?
    ensures WellFormed(Parse(c, argv).value)
  {
    ParsesExactlyTheGrammar(c, argv);
    var (items, rest) := Read(c, argv);
    WordsUndashed(c, items);
    FromCommandStarts(Words(items));
    FromCommandKeeps(Words(items));
  }

  lemma {:induction false} WordsUndashed(c: Coercions, items: seq<Item>)
    requires AllAllowed(c, items)
    ensures forall word <- Words(items) :: !Dashed(word)
  {
    if items != [] {
      assert AllAllowed(c, items[1..]);
      WordsUndashed(c, items[1..]);
    }
  }

  lemma {:induction false} FromCommandKeeps(words: seq<string>)
    ensures forall word <- FromCommand(words) :: word in words
  {
    if words != [] && words[0] == "" {
      FromCommandKeeps(words[1..]);
    }
  }

  // ---------------------------------------------------------------- what is a word, and what an option

  function AsWords(tokens: seq<string>): (items: seq<Item>)
    ensures |items| == |tokens| && forall i :: 0 <= i < |tokens| ==> items[i] == Word(tokens[i])
  {
    if tokens == [] then [] else [Word(tokens[0])] + AsWords(tokens[1..])
  }

  lemma {:induction false} AsWordsAreTheTokens(tokens: seq<string>)
    ensures SpellAll(AsWords(tokens)) == tokens && Words(AsWords(tokens)) == tokens
  {
    if tokens != [] {
      AsWordsAreTheTokens(tokens[1..]);
      assert AsWords(tokens)[1..] == AsWords(tokens[1..]);
      assert tokens == [tokens[0]] + tokens[1..];
    }
  }

  lemma DashedStarts(token: string)
    ensures Dashed(token) <==> StartsWith(token, "-")
  {
    assert Dashed(token) ==> token[..1] == "-";
  }

  /** Tokens without a leading dash always parse, and only as words: the first that is not empty is the command and
      the later ones follow it. */
  lemma DashlessAreWords(c: Coercions, tokens: seq<string>)
    requires forall i :: 0 <= i < |tokens| ==> !StartsWith(tokens[i], "-")
    ensures Parse(c, tokens).Ok?
    ensures
      var args, words := Parse(c, tokens).value, FromCommand(tokens);
      && args.command == (if words == [] then "" else words[0])
      && args.positionals == (if words == [] then [] else words[1..])
  {
    AsWordsAreTheTokens(tokens);
    forall i | 0 <= i < |tokens| ensures !Dashed(tokens[i]) {
      DashedStarts(tokens[i]);
    }
    PrintedItemsParse(c, AsWords(tokens));
  }

  /** And a token with one is never a word: after one dash it is an option by its whole text, after two by what stands
      before the first equals sign; an unknown one is refused by that name, whatever follows. */
  lemma DashedAreOptions(c: Coercions, name: string, value: string, rest: seq<string>)
    requires forall flag :: name != FlagName(flag) && Some(name) != ShortName(flag)
    requires forall key :: name != KeyName(key)
    ensures StartsWith(name, "-") && (!StartsWith(name, "--") || '=' !in name) ==>
              Parse(c, [name] + rest) == Err(UnknownOption(name))
    ensures StartsWith(name, "--") && '=' !in name ==>
              Parse(c, [name + "=" + value] + rest) == Err(UnknownOption(name))
  {
    LookUpNames(name);
    var token := name + "=" + value;
    assert ([name] + rest)[0] == name && ([token] + rest)[0] == token;
    if StartsWith(name, "-") {
      DashedStarts(name);
      assert Long(name) ==> name[..2] == "--";
      if StartsWith(name, "--") && '=' !in name {
        assert name[..2] == "--";
        IndexAfter(name, '=', value);
        assert token[..|name|] == name;
      }
    }
  }
}
