/**
 * The command-option layer: it walks the structure string, resolves every token
 * to a `--set` custom value or a registered module, and sends each resolved
 * token to exactly one sink: the migrate-config document, the result document,
 * or the text printed on stdout.
 */
module CommandOption {
  import opened Wrappers
  import opened Ascii
  import opened Structure
  import opened Modules
  import opened JsonDoc

  const NO_IMPLEMENTATION := "<no implementation provided>"
  const UNSUPPORTED_FOR_JSON := "Unsupported for JSON format"

  /** Names of the modules that need background work started before printing. */
  const CPUUSAGE_NAME := "CPUUsage"
  const DISKIO_NAME := "DiskIO"
  const NETIO_NAME := "NetIO"
  const PUBLICIP_NAME := "PublicIp"
  const WEATHER_NAME := "Weather"

  /** One `--set key=value` (printKey) or `--set-keyless key=value` entry. */
  datatype CustomValue = CustomValue(key: string, value: string, printKey: bool)

  /** The key and output format of the FFCustomOptions built for a matched custom value. */
  datatype CustomOptions = CustomOptions(key: string, outputFormat: string)

  /** What the text sink receives, in order. */
  datatype Event =
    | ModulePrinted(name: string)               // baseInfo->printModule
    | CustomPrinted(options: CustomOptions)     // ffPrintCustom
    | ErrorPrinted(token: string, message: string)
    | ConfigWritten(doc: ConfigDoc)             // yyjson_mut_write_fp of the migrate-config document

  /** The three sinks: a missing document is a null pointer in instance.state. */
  datatype Sinks = Sinks(migrateConfigDoc: Option<ConfigDoc>, resultDoc: Option<seq<Record>>, output: seq<Event>)

  /** What a token resolves against: the `--set` values, the registry and the descriptor of the Custom module. */
  datatype Env = Env(customValues: seq<CustomValue>, registry: Registry, customInfo: ModuleInfo)

  datatype Resolution = ToCustom(value: CustomValue) | ToModule(info: ModuleInfo) | Unresolved

  /** The preparations ffPrepareCommandOption starts. */
  datatype Preparation = PrepareCpuUsage | PrepareDiskIo | PrepareNetIo | PreparePublicIp | PrepareWeather

  /** Index of the first custom value whose key equals `token` exactly (case-sensitive). */
  function FirstCustom(values: seq<CustomValue>, token: string): (r: Option<nat>)
    ensures r.Some? ==> r.value < |values|
  {
    if values == [] then None
    else if values[0].key == token then Some(0)
    else match FirstCustom(values[1..], token)
      case None => None
      case Some(i) => Some(i + 1)
  }

  /** The value found has the key, no earlier value has it, and nothing is found exactly when no value has it. */
  lemma {:induction false} FirstCustomIsFirst(values: seq<CustomValue>, token: string)
    ensures var r := FirstCustom(values, token);
      && (r.Some? ==> values[r.value].key == token)
      && (r.Some? ==> forall j :: 0 <= j < r.value ==> values[j].key != token)
      && (r.None? <==> forall j :: 0 <= j < |values| ==> values[j].key != token)
    decreases |values|
  {
    if values != [] && values[0].key != token {
      FirstCustomIsFirst(values[1..], token);
      assert forall j :: 1 <= j < |values| ==> values[j] == values[1..][j - 1];
    }
  }

  /**
   * parseStructureCommand's choice: a custom value first, then a module, else nothing.
   * A custom value is taken only under its exact key, a module only under its
   * name ignoring case, and a token that does not start with a letter names no module.
   */
  function Resolve(env: Env, token: string): (r: Resolution)
    ensures r.ToCustom? ==> r.value.key == token
    ensures r.ToModule? ==> EqualsIgnoreCase(token, r.info.name)
    ensures |token| == 0 || !IsAlpha(token[0]) ==> !r.ToModule?
  {
    FirstCustomIsFirst(env.customValues, token);
    match FirstCustom(env.customValues, token)
    case Some(i) => ToCustom(env.customValues[i])
    case None =>
      match FindModule(env.registry, token)
      case Some(info) => ToModule(info)
      case None => Unresolved
  }

  /** The options built for a matched custom value: its key only when printKey is set. */
  function OptionsFor(value: CustomValue): CustomOptions {
    CustomOptions(if value.printKey then value.key else "", value.value)
  }

  /** genJsonConfig's record: "type" is the lower-cased name, then the module's own fields if it has a generator. */
  function ConfigRecord(info: ModuleInfo, generated: Generated): (r: Record)
    ensures r.members == [Member("type", LowerCase(info.name))]
    ensures r.generated.NotGenerated? || info.hasJsonConfig
    ensures info.hasJsonConfig ==> r.generated == generated
  {
    Record([Member("type", LowerCase(info.name))], if info.hasJsonConfig then generated else NotGenerated)
  }

  /**
   * genJsonResult's record: "type" is the name as registered; a module without
   * generateJsonResult gets an "error" member instead of its own fields.
   */
  function ResultRecord(info: ModuleInfo): (r: Record)
    ensures |r.members| > 0 && r.members[0] == Member("type", info.name)
    ensures HasMember(r, "error") <==> !info.hasJsonResult
    ensures !info.hasJsonResult ==> Member("error", UNSUPPORTED_FOR_JSON) in r.members
    ensures r.generated.ByModule? <==> info.hasJsonResult
  {
    if info.hasJsonResult then Record([Member("type", info.name)], ByModule(info.name))
    else Record([Member("type", info.name), Member("error", UNSUPPORTED_FOR_JSON)], NotGenerated)
  }

  /**
   * ffParseModuleCommand's sink choice for a found module: the migrate-config
   * document when there is one, else the result document, else stdout. Exactly
   * that sink grows by one and the other two are left alone.
   */
  function EmitModule(sinks: Sinks, info: ModuleInfo): (r: Sinks)
    ensures r.migrateConfigDoc.Some? == sinks.migrateConfigDoc.Some? && r.resultDoc.Some? == sinks.resultDoc.Some?
    ensures Size(r) == Size(sinks) + 1
    ensures sinks.migrateConfigDoc.Some? ==> r.resultDoc == sinks.resultDoc && r.output == sinks.output
    ensures sinks.migrateConfigDoc.None? ==> r.migrateConfigDoc == sinks.migrateConfigDoc
    ensures sinks.migrateConfigDoc.None? && sinks.resultDoc.Some? ==> r.output == sinks.output
    ensures sinks.migrateConfigDoc.None? && sinks.resultDoc.None? ==> r.resultDoc == sinks.resultDoc
  {
    if sinks.migrateConfigDoc.Some? then
      sinks.(migrateConfigDoc := Some(AddModule(sinks.migrateConfigDoc.value, ConfigRecord(info, ByModule(info.name)))))
    else if sinks.resultDoc.Some? then
      sinks.(resultDoc := Some(sinks.resultDoc.value + [ResultRecord(info)]))
    else
      sinks.(output := sinks.output + [ModulePrinted(info.name)])
  }

  /**
   * What one token does to the sinks: exactly one record or one event is added,
   * no document appears or disappears, and only a module reaches the result document.
   */
  function Step(sinks: Sinks, env: Env, token: string): (r: Sinks)
    ensures r.migrateConfigDoc.Some? == sinks.migrateConfigDoc.Some? && r.resultDoc.Some? == sinks.resultDoc.Some?
    ensures Size(r) == Size(sinks) + 1
    ensures r.resultDoc != sinks.resultDoc ==> Resolve(env, token).ToModule?
  {
    match Resolve(env, token)
    case ToCustom(value) =>
      var options := OptionsFor(value);
      if sinks.migrateConfigDoc.Some? then
        var record := ConfigRecord(env.customInfo, ByCustom(options.key, options.outputFormat));
        sinks.(migrateConfigDoc := Some(AddModule(sinks.migrateConfigDoc.value, record)))
      else
        sinks.(output := sinks.output + [CustomPrinted(options)])
    case ToModule(info) => EmitModule(sinks, info)
    case Unresolved => sinks.(output := sinks.output + [ErrorPrinted(token, NO_IMPLEMENTATION)])
  }

  /** The tokens handled one after the other, left to right. */
  function Run(sinks: Sinks, env: Env, tokens: seq<string>): Sinks
    decreases |tokens|
  {
    if tokens == [] then sinks else Run(Step(sinks, env, tokens[0]), env, tokens[1..])
  }

  /** What yyjson_mut_write_fp prints: the document, or nothing for a null one. */
  function Written(doc: Option<ConfigDoc>): seq<Event> {
    match doc
    case None => []
    case Some(d) => [ConfigWritten(d)]
  }

  /** How much has been written to the three sinks together. */
  function Size(sinks: Sinks): nat {
    (if sinks.migrateConfigDoc.Some? then |ModulesOf(sinks.migrateConfigDoc.value)| else 0)
    + (if sinks.resultDoc.Some? then |sinks.resultDoc.value| else 0)
    + |sinks.output|
  }

  /** The single text event a token produces when neither document is present. */
  function TextEvent(env: Env, token: string): Event {
    match Resolve(env, token)
    case ToCustom(value) => CustomPrinted(OptionsFor(value))
    case ToModule(info) => ModulePrinted(info.name)
    case Unresolved => ErrorPrinted(token, NO_IMPLEMENTATION)
  }

  function TextEvents(env: Env, tokens: seq<string>): seq<Event> {
    if tokens == [] then [] else [TextEvent(env, tokens[0])] + TextEvents(env, tokens[1..])
  }

  /** The config record a token adds in migration mode: one for a custom value or a module, none otherwise. */
  function ConfigRecordOf(env: Env, token: string): seq<Record> {
    match Resolve(env, token)
    case ToCustom(value) =>
      var options := OptionsFor(value);
      [ConfigRecord(env.customInfo, ByCustom(options.key, options.outputFormat))]
    case ToModule(info) => [ConfigRecord(info, ByModule(info.name))]
    case Unresolved => []
  }

  /** The records migration adds: one per resolved token, custom values included. */
  function ConfigRecords(env: Env, tokens: seq<string>): seq<Record> {
    if tokens == [] then [] else ConfigRecordOf(env, tokens[0]) + ConfigRecords(env, tokens[1..])
  }

  /** The error a token prints when nothing resolves it. */
  function UnresolvedErrorOf(env: Env, token: string): seq<Event> {
    if Resolve(env, token).Unresolved? then [ErrorPrinted(token, NO_IMPLEMENTATION)] else []
  }

  function UnresolvedErrors(env: Env, tokens: seq<string>): seq<Event> {
    if tokens == [] then [] else UnresolvedErrorOf(env, tokens[0]) + UnresolvedErrors(env, tokens[1..])
  }

  /** The result record a token adds in JSON output mode: one for a module, none otherwise. */
  function ResultRecordOf(env: Env, token: string): seq<Record> {
    match Resolve(env, token)
    case ToModule(info) => [ResultRecord(info)]
    case _ => []
  }

  function ResultRecords(env: Env, tokens: seq<string>): seq<Record> {
    if tokens == [] then [] else ResultRecordOf(env, tokens[0]) + ResultRecords(env, tokens[1..])
  }

  /** The text event a token prints in JSON output mode: custom values and errors still go to stdout. */
  function NonModuleEventOf(env: Env, token: string): seq<Event> {
    if Resolve(env, token).ToModule? then [] else [TextEvent(env, token)]
  }

  function NonModuleEvents(env: Env, tokens: seq<string>): seq<Event> {
    if tokens == [] then [] else NonModuleEventOf(env, tokens[0]) + NonModuleEvents(env, tokens[1..])
  }

  /** A custom value whose key equals the token wins over any module, and the first such value is used. */
  lemma CustomValueTakesPrecedence(env: Env, token: string, i: nat)
    requires i < |env.customValues| && env.customValues[i].key == token
    requires forall j :: 0 <= j < i ==> env.customValues[j].key != token
    ensures Resolve(env, token) == ToCustom(env.customValues[i])
  {
    FirstCustomIsFirst(env.customValues, token);
  }

  /** Without a matching custom value, a token resolves to a module exactly when the registry lookup finds one. */
  lemma ResolveToModule(env: Env, token: string)
    requires forall j :: 0 <= j < |env.customValues| ==> env.customValues[j].key != token
    ensures Resolve(env, token).ToModule? <==> FindModule(env.registry, token).Some?
    ensures Resolve(env, token).ToModule? ==> Resolve(env, token).info == FindModule(env.registry, token).value
    ensures Resolve(env, token).Unresolved? <==> FindModule(env.registry, token).None?
  {
    FirstCustomIsFirst(env.customValues, token);
  }

  /**
   * Exactly one sink fires per token: whichever mode the documents set, each
   * token adds exactly one record or one event, and no document appears or
   * disappears along the way.
   */
  lemma {:induction false} RunWritesOnePerToken(sinks: Sinks, env: Env, tokens: seq<string>)
    ensures var after := Run(sinks, env, tokens);
      && after.migrateConfigDoc.Some? == sinks.migrateConfigDoc.Some?
      && after.resultDoc.Some? == sinks.resultDoc.Some?
      && Size(after) == Size(sinks) + |tokens|
    decreases |tokens|
  {
    if tokens != [] {
      RunWritesOnePerToken(Step(sinks, env, tokens[0]), env, tokens[1..]);
    }
  }

  /** Text mode: the output is one event per token, in token order, and no document is touched. */
  lemma {:induction false} RunTextMode(sinks: Sinks, env: Env, tokens: seq<string>)
    requires sinks.migrateConfigDoc.None? && sinks.resultDoc.None?
    ensures Run(sinks, env, tokens) == sinks.(output := sinks.output + TextEvents(env, tokens))
    decreases |tokens|
  {
    if tokens != [] {
      RunTextMode(Step(sinks, env, tokens[0]), env, tokens[1..]);
    }
  }

  /**
   * Migration mode: every resolved token, custom values included, becomes a
   * config record in token order; the result document is left alone and only
   * the "no implementation" errors reach stdout.
   */
  lemma {:induction false} RunMigrateMode(sinks: Sinks, env: Env, tokens: seq<string>)
    requires sinks.migrateConfigDoc.Some?
    ensures var after := Run(sinks, env, tokens);
      && after.migrateConfigDoc.Some?
      && ModulesOf(after.migrateConfigDoc.value) == ModulesOf(sinks.migrateConfigDoc.value) + ConfigRecords(env, tokens)
      && after.resultDoc == sinks.resultDoc
      && after.output == sinks.output + UnresolvedErrors(env, tokens)
    decreases |tokens|
  {
    if tokens == [] {
      assert ModulesOf(sinks.migrateConfigDoc.value) + [] == ModulesOf(sinks.migrateConfigDoc.value);
      assert sinks.output + [] == sinks.output;
    } else {
      var next := Step(sinks, env, tokens[0]);
      StepMigrateMode(sinks, env, tokens[0]);
      RunMigrateMode(next, env, tokens[1..]);
      AppendAssoc(ModulesOf(sinks.migrateConfigDoc.value), ConfigRecordOf(env, tokens[0]), ConfigRecords(env, tokens[1..]));
      AppendAssoc(sinks.output, UnresolvedErrorOf(env, tokens[0]), UnresolvedErrors(env, tokens[1..]));
    }
  }

  lemma StepMigrateMode(sinks: Sinks, env: Env, token: string)
    requires sinks.migrateConfigDoc.Some?
    ensures var next := Step(sinks, env, token);
      && next.migrateConfigDoc.Some?
      && ModulesOf(next.migrateConfigDoc.value) == ModulesOf(sinks.migrateConfigDoc.value) + ConfigRecordOf(env, token)
      && next.resultDoc == sinks.resultDoc
      && next.output == sinks.output + UnresolvedErrorOf(env, token)
  {
    match Resolve(env, token) {
      case ToModule(info) =>
        assert sinks.output + [] == sinks.output;
      case ToCustom(value) =>
        assert sinks.output + [] == sinks.output;
      case Unresolved =>
        assert ModulesOf(sinks.migrateConfigDoc.value) + [] == ModulesOf(sinks.migrateConfigDoc.value);
    }
  }

  /**
   * JSON output mode: modules become result records in token order, while custom
   * values and unresolved tokens still print to stdout.
   */
  lemma {:induction false} RunResultMode(sinks: Sinks, env: Env, tokens: seq<string>)
    requires sinks.migrateConfigDoc.None? && sinks.resultDoc.Some?
    ensures var after := Run(sinks, env, tokens);
      && after.migrateConfigDoc.None?
      && after.resultDoc == Some(sinks.resultDoc.value + ResultRecords(env, tokens))
      && after.output == sinks.output + NonModuleEvents(env, tokens)
    decreases |tokens|
  {
    if tokens == [] {
      assert sinks.resultDoc.value + [] == sinks.resultDoc.value;
      assert sinks.output + [] == sinks.output;
    } else {
      var next := Step(sinks, env, tokens[0]);
      StepResultMode(sinks, env, tokens[0]);
      RunResultMode(next, env, tokens[1..]);
      AppendAssoc(sinks.resultDoc.value, ResultRecordOf(env, tokens[0]), ResultRecords(env, tokens[1..]));
      AppendAssoc(sinks.output, NonModuleEventOf(env, tokens[0]), NonModuleEvents(env, tokens[1..]));
    }
  }

  lemma AppendAssoc<T>(a: seq<T>, b: seq<T>, c: seq<T>)
    ensures (a + b) + c == a + (b + c)
  {
  }

  lemma StepResultMode(sinks: Sinks, env: Env, token: string)
    requires sinks.migrateConfigDoc.None? && sinks.resultDoc.Some?
    ensures var next := Step(sinks, env, token);
      && next.migrateConfigDoc.None?
      && next.resultDoc == Some(sinks.resultDoc.value + ResultRecordOf(env, token))
      && next.output == sinks.output + NonModuleEventOf(env, token)
  {
    match Resolve(env, token) {
      case ToModule(info) =>
        assert sinks.output + [] == sinks.output;
      case ToCustom(value) =>
        assert sinks.resultDoc.value + [] == sinks.resultDoc.value;
      case Unresolved =>
        assert sinks.resultDoc.value + [] == sinks.resultDoc.value;
    }
  }

  /** Handling the first token from `start` and then the rest is the same as handling all of them. */
  lemma RunFirstToken(before: Sinks, after: Sinks, env: Env, s: seq<char>, start: nat, colon: nat, token: string)
    requires start < |s| && colon == NextIndex(s, start, SEPARATOR)
    requires token == UntilNul(s[start..colon]) && after == Step(before, env, token)
    ensures Run(after, env, TokensFrom(s, colon + 1)) == Run(before, env, TokensFrom(s, start))
  {
    TokensFromUnfold(s, start);
    assert ([token] + TokensFrom(s, colon + 1))[1..] == TokensFrom(s, colon + 1);
  }

  /**
   * The state ffPrintCommandOption works on: FFdata (the structure buffer and the
   * `--set` values) together with instance.state's two documents and stdout.
   * The structure is an FFstrbuf: `length` characters in `chars`, NUL after them.
   */
  class CommandOptionState {
    var chars: array<char>
    var length: nat
    var customValues: seq<CustomValue>
    const registry: Registry
    const customInfo: ModuleInfo
    var migrateConfigDoc: Option<ConfigDoc>
    var resultDoc: Option<seq<Record>>
    var output: seq<Event>

    ghost predicate Valid()
      reads this, chars
    {
      length < chars.Length && chars[length] == NUL
    }

    function Structure(): seq<char>
      reads this, chars
      requires Valid()
    {
      chars[..length]
    }

    /** The three sinks as they stand. */
    function Out(): Sinks
      reads this`migrateConfigDoc, this`resultDoc, this`output
    {
      Sinks(migrateConfigDoc, resultDoc, output)
    }

    /** What tokens resolve against. */
    function Context(): Env
      reads this`customValues
    {
      Env(customValues, registry, customInfo)
    }

    constructor (structure: string, customValues: seq<CustomValue>, registry: Registry, customInfo: ModuleInfo,
                 migrateConfigDoc: Option<ConfigDoc>, resultDoc: Option<seq<Record>>)
      ensures Valid() && fresh(chars)
      ensures Structure() == structure
      ensures Out() == Sinks(migrateConfigDoc, resultDoc, [])
      ensures Context() == Env(customValues, registry, customInfo)
    {
      var buffer := new char[|structure| + 1](_ => NUL);
      forall i | 0 <= i < |structure| {
        buffer[i] := structure[i];
      }
      chars := buffer;
      length := |structure|;
      this.customValues := customValues;
      this.registry := registry;
      this.customInfo := customInfo;
      this.migrateConfigDoc := migrateConfigDoc;
      this.resultDoc := resultDoc;
      output := [];
    }

    /** genJsonConfig: adds a record to "modules" when the migrate-config document exists. */
    method GenJsonConfig(info: ModuleInfo, generated: Generated) returns (added: bool)
      modifies this`migrateConfigDoc
      ensures added == old(migrateConfigDoc).Some?
      ensures migrateConfigDoc ==
        if added then Some(AddModule(old(migrateConfigDoc).value, ConfigRecord(info, generated)))
        else old(migrateConfigDoc)
    {
      added := migrateConfigDoc.Some?;
      if added {
        migrateConfigDoc := Some(AddModule(migrateConfigDoc.value, ConfigRecord(info, generated)));
      }
    }

    /** genJsonResult: appends a record to the root array when the result document exists. */
    method GenJsonResult(info: ModuleInfo) returns (added: bool)
      modifies this`resultDoc
      ensures added == old(resultDoc).Some?
      ensures resultDoc == if added then Some(old(resultDoc).value + [ResultRecord(info)]) else old(resultDoc)
    {
      added := resultDoc.Some?;
      if added {
        resultDoc := Some(resultDoc.value + [ResultRecord(info)]);
      }
    }

    /**
     * ffParseModuleCommand: false when the first character is not a letter or no
     * module in its bucket has the name; otherwise the first match goes to one sink.
     */
    method ParseModuleCommand(token: string) returns (found: bool)
      modifies this`migrateConfigDoc, this`resultDoc, this`output
      ensures found <==> FindModule(registry, token).Some?
      ensures Out() == if found then EmitModule(old(Out()), FindModule(registry, token).value) else old(Out())
    {
      if |token| == 0 || !IsAlpha(token[0]) {
        return false;
      }
      var bucket := Bucket(registry, ToUpper(token[0]));
      for i := 0 to |bucket|
        invariant forall j :: 0 <= j < i ==> !EqualsIgnoreCase(token, bucket[j].name)
        invariant Out() == old(Out())
      {
        var info := bucket[i];
        if EqualsIgnoreCase(token, info.name) {
          assert FirstNamed(bucket, token) == Some(i);
          var inConfig := GenJsonConfig(info, ByModule(info.name));
          if !inConfig {
            var inResult := GenJsonResult(info);
            if !inResult {
              output := output + [ModulePrinted(info.name)];
            }
          }
          return true;
        }
      }
      return false;
    }

    /** parseStructureCommand: the first custom value with the token as key, else a module, else an error line. */
    method ParseStructureCommand(token: string)
      modifies this`migrateConfigDoc, this`resultDoc, this`output
      ensures Out() == Step(old(Out()), Context(), token)
    {
      for i := 0 to |customValues|
        invariant forall j :: 0 <= j < i ==> customValues[j].key != token
        invariant Out() == old(Out())
      {
        var value := customValues[i];
        if value.key == token {
          CustomValueTakesPrecedence(Context(), token, i);
          var options := OptionsFor(value);
          var inConfig := GenJsonConfig(customInfo, ByCustom(options.key, options.outputFormat));
          if !inConfig {
            output := output + [CustomPrinted(options)];
          }
          return;
        }
      }
      ResolveToModule(Context(), token);
      var found := ParseModuleCommand(token);
      if !found {
        output := output + [ErrorPrinted(token, NO_IMPLEMENTATION)];
      }
    }

    /**
     * ffPrintCommandOption: cuts the structure at each ':' in place and hands the
     * tokens to parseStructureCommand from left to right. Afterwards every ':' of
     * the structure is a NUL and nothing else in the buffer has changed.
     */
    method PrintCommandOption()
      requires Valid()
      modifies chars, this`migrateConfigDoc, this`resultDoc, this`output
      ensures Valid() && length == old(length)
      ensures chars[..] == Cut(old(chars[..]), length, length)
      ensures Out() == Run(old(Out()), Context(), Tokens(old(Structure())))
    {
      ghost var orig := chars[..];
      ghost var s := chars[..length];
      ghost var env := Context();
      var startIndex: nat := 0;
      CutNone(orig, length);
      while startIndex < length
        invariant startIndex <= length + 1
        invariant chars[..] == Cut(orig, startIndex, length)
        invariant Run(Out(), env, TokensFrom(s, startIndex)) == Run(old(Out()), env, Tokens(s))
        decreases length - startIndex
      {
        ghost var before := Out();
        var colonIndex, token := CutNext(orig, s, startIndex);
        Dispatch(s, env, before, startIndex, colonIndex, token);
        startIndex := colonIndex + 1;
      }
      CutDone(orig, startIndex, length);
      assert TokensFrom(s, startIndex) == [];
    }

    /** The handler's half of a turn: the token cut off at `startIndex` goes to parseStructureCommand. */
    method Dispatch(ghost s: seq<char>, ghost env: Env, ghost before: Sinks, startIndex: nat, colonIndex: nat, token: string)
      requires startIndex < |s| && colonIndex == NextIndex(s, startIndex, SEPARATOR)
      requires token == UntilNul(s[startIndex..colonIndex]) && env == Context() && before == Out()
      modifies this`migrateConfigDoc, this`resultDoc, this`output
      ensures Run(Out(), env, TokensFrom(s, colonIndex + 1)) == Run(before, env, TokensFrom(s, startIndex))
    {
      ParseStructureCommand(token);
      RunFirstToken(before, Out(), env, s, startIndex, colonIndex, token);
    }

    /**
     * One turn of ffPrintCommandOption's loop before the handler runs: find the
     * next ':' (or the end), write the NUL there and read the C string at `startIndex`.
     */
    method CutNext(ghost orig: seq<char>, ghost s: seq<char>, startIndex: nat) returns (colonIndex: nat, token: string)
      requires length < |orig| == chars.Length && orig[length] == NUL && s == orig[..length]
      requires startIndex < length
      requires chars[..] == Cut(orig, startIndex, length)
      modifies chars
      ensures colonIndex == NextIndex(s, startIndex, SEPARATOR)
      ensures chars[..] == Cut(orig, colonIndex + 1, length)
      ensures token == UntilNul(s[startIndex..colonIndex])
    {
      CutScan(orig, length, startIndex);
      assert chars[..length] == Cut(orig, startIndex, length)[..length];
      colonIndex := NextIndex(chars[..length], startIndex, SEPARATOR);
      CutStep(orig, length, startIndex, colonIndex);
      chars[colonIndex] := NUL;
      CutRead(orig, length, startIndex, colonIndex);
      token := UntilNul(chars[startIndex..]);
    }

    /** ffStrbufAppendS: the buffer grows by `s`, still NUL-terminated. */
    method Append(s: string)
      requires Valid()
      modifies this`chars, this`length
      ensures Valid() && fresh(chars)
      ensures Structure() == old(Structure()) + s
    {
      var buffer := new char[length + |s| + 1](_ => NUL);
      forall i | 0 <= i < length {
        buffer[i] := chars[i];
      }
      forall i | 0 <= i < |s| {
        buffer[length + i] := s[i];
      }
      chars := buffer;
      length := length + |s|;
      assert Structure() == old(Structure()) + s;
    }

    /**
     * ffPrepareCommandOption: an empty structure is replaced by the default one;
     * then CPU usage, disk IO and net IO are prepared when the structure names
     * them (ignoring case), public IP and weather only when multithreading is on.
     */
    method PrepareCommandOption(defaultStructure: string, multithreading: bool) returns (prepared: set<Preparation>)
      requires Valid()
      modifies this`chars, this`length
      ensures Valid()
      ensures Structure() == if old(length) == 0 then defaultStructure else old(Structure())
      ensures PrepareCpuUsage in prepared <==> ContainsIgnoreCase(Structure(), CPUUSAGE_NAME)
      ensures PrepareDiskIo in prepared <==> ContainsIgnoreCase(Structure(), DISKIO_NAME)
      ensures PrepareNetIo in prepared <==> ContainsIgnoreCase(Structure(), NETIO_NAME)
      ensures PreparePublicIp in prepared <==> multithreading && ContainsIgnoreCase(Structure(), PUBLICIP_NAME)
      ensures PrepareWeather in prepared <==> multithreading && ContainsIgnoreCase(Structure(), WEATHER_NAME)
    {
      if length == 0 {
        Append(defaultStructure);
      }
      var structure := chars[..length];
      prepared := {};
      if ContainsIgnoreCase(structure, CPUUSAGE_NAME) {
        prepared := prepared + {PrepareCpuUsage};
      }
      if ContainsIgnoreCase(structure, DISKIO_NAME) {
        prepared := prepared + {PrepareDiskIo};
      }
      if ContainsIgnoreCase(structure, NETIO_NAME) {
        prepared := prepared + {PrepareNetIo};
      }
      if multithreading {
        if ContainsIgnoreCase(structure, PUBLICIP_NAME) {
          prepared := prepared + {PreparePublicIp};
        }
        if ContainsIgnoreCase(structure, WEATHER_NAME) {
          prepared := prepared + {PrepareWeather};
        }
      }
    }

    /**
     * ffMigrateCommandOptionToJsonc: with the default structure filled in, every
     * token is run through the migrate-config document, which is then written out.
     */
    method MigrateCommandOptionToJsonc(defaultStructure: string)
      requires Valid()
      modifies this`chars, this`length, chars, this`migrateConfigDoc, this`resultDoc, this`output
      ensures Valid()
      ensures var structure := if old(length) == 0 then defaultStructure else old(Structure());
        var after := Run(old(Out()), Context(), Tokens(structure));
        && migrateConfigDoc == after.migrateConfigDoc
        && resultDoc == after.resultDoc
        && output == after.output + Written(migrateConfigDoc)
      ensures var structure := if old(length) == 0 then defaultStructure else old(Structure());
        length == |structure| && chars[..length] == Cut(structure, |structure|, |structure|)
    {
      ghost var structure := if length == 0 then defaultStructure else Structure();
      if length == 0 {
        Append(defaultStructure);
      }
      assert Structure() == structure;
      ghost var pre := chars[..];
      PrintCommandOption();
      CutPrefix(pre, structure, length);
      output := output + Written(migrateConfigDoc);
    }

    /**
     * ffParseModuleOptions: keys that do not start with "--" followed by a letter
     * are refused; otherwise the option belongs to the first module of that
     * letter's bucket whose parseCommandOptions accepts it, and to none if none does.
     */
    method ParseModuleOptions(key: string, value: string, accepts: (ModuleInfo, string, string) -> bool)
      returns (handled: bool, taker: Option<ModuleInfo>)
      ensures !IsModuleOptionKey(key) ==> !handled
      ensures handled <==> taker.Some?
      ensures IsModuleOptionKey(key) ==>
        var bucket := Bucket(registry, ToUpper(key[2]));
        taker == match FirstAccepting(bucket, key, value, accepts)
          case Some(i) => Some(bucket[i])
          case None => None
    {
      if !(|key| >= 3 && key[..2] == "--") || !IsAlpha(key[2]) {
        return false, None;
      }
      var bucket := Bucket(registry, ToUpper(key[2]));
      for i := 0 to |bucket|
        invariant forall j :: 0 <= j < i ==> !accepts(bucket[j], key, value)
      {
        if accepts(bucket[i], key, value) {
          assert FirstAccepting(bucket, key, value, accepts) == Some(i);
          return true, Some(bucket[i]);
        }
      }
      return false, None;
    }
  }
}
