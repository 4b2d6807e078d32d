/**
 * The memory module (src/modules/memory/memory.c): how ffPrintMemory turns the
 * detected usage into one line or one formatted output, and how its options are
 * read from the command line and from a JSON configuration object.
 */
module Memory {
  import opened Wrappers
  import opened Ascii

  const MODULE_NAME := "Memory"
  const NUM_FORMAT_ARGS := 3
  const DISABLED := "Disabled"
  const UNKNOWN_JSON_KEY := "Unknown JSON key "

  /** The bits of instance.config.percentType that the line composition reads. */
  const PERCENT_NUM_BIT: bv32 := 1
  const PERCENT_BAR_BIT: bv32 := 2
  const PERCENT_HIDE_OTHERS_BIT: bv32 := 4

  type Byte = x: int | 0 <= x < 256

  /** FFModuleArgs, reduced to the key printed before the value and the custom output format. */
  datatype ModuleArgs = ModuleArgs(key: string, outputFormat: string)

  /** FFMemoryResult: the byte counts ffDetectMemory reports. */
  datatype MemoryResult = MemoryResult(bytesUsed: nat, bytesTotal: nat)

  /**
   * What this model takes as given: ffParseSize, the floating-point ratio
   * `used / total * 100` truncated to a byte, ffAppendPercentBar and
   * ffAppendPercentNum (whose flag asks for parentheses).
   */
  datatype Rendering = Rendering(
    size: nat -> string,
    ratio: (nat, nat) -> Byte,
    bar: Byte -> string,
    num: (Byte, bool) -> string)

  /** One argument of ffPrintFormat. */
  datatype FormatArg = StrbufArg(text: string) | Uint8Arg(byte: Byte)

  /** What the module prints. */
  datatype Output =
    | ErrorPrinted(args: ModuleArgs, message: string)          // ffPrintError
    | LinePrinted(key: string, line: string)                   // ffPrintLogoAndKey, then the line
    | Formatted(args: ModuleArgs, formatArgs: seq<FormatArg>)  // ffPrintFormat

  /** One key/value pair of the module's JSON configuration object. */
  datatype JsonMember = JsonMember(key: string, value: string)

  /** The options and errors accumulated while walking a JSON configuration object. */
  datatype JsonPass = JsonPass(args: ModuleArgs, errors: seq<Output>)

  predicate HasBit(percentType: bv32, bit: bv32) {
    percentType & bit != 0
  }

  /** The percentage is 0 for a total of 0 and never divides by it. */
  function Percentage(storage: MemoryResult, rendering: Rendering): (p: Byte)
    ensures storage.bytesTotal == 0 ==> p == 0
    ensures storage.bytesTotal != 0 ==> p == rendering.ratio(storage.bytesUsed, storage.bytesTotal)
  {
    if storage.bytesTotal == 0 then 0 else rendering.ratio(storage.bytesUsed, storage.bytesTotal)
  }

  /** ffStrbufTrimRight(str, ' '): the string without its trailing spaces. */
  function TrimRight(s: string): (r: string)
    ensures r <= s
    ensures r == [] || r[|r| - 1] != ' '
    ensures forall i :: |r| <= i < |s| ==> s[i] == ' '
  {
    if s == [] || s[|s| - 1] != ' ' then s else TrimRight(s[..|s| - 1])
  }

  /** TrimRight is the only prefix that drops nothing but spaces and does not end in one. */
  lemma TrimRightUnique(s: string, t: string)
    requires t <= s
    requires t == [] || t[|t| - 1] != ' '
    requires forall i :: |t| <= i < |s| ==> s[i] == ' '
    ensures t == TrimRight(s)
  {
  }

  /** The part of the line before the percentage number: the bar, then "used / total ". */
  function BarAndSizes(percentType: bv32, used: string, total: string, percentage: Byte, rendering: Rendering): string {
    (if HasBit(percentType, PERCENT_BAR_BIT) then rendering.bar(percentage) + " " else "")
    + (if !HasBit(percentType, PERCENT_HIDE_OTHERS_BIT) then used + " / " + total + " " else "")
  }

  /** The line before trimming: bar and sizes, then the number, parenthesised when something precedes it. */
  function Untrimmed(percentType: bv32, used: string, total: string, percentage: Byte, rendering: Rendering): string {
    var head := BarAndSizes(percentType, used, total, percentage, rendering);
    head + (if HasBit(percentType, PERCENT_NUM_BIT) then rendering.num(percentage, |head| > 0) else "")
  }

  /**
   * The number is asked for in its parenthesised form exactly when the bar or
   * the "used / total" text stands before it.
   */
  lemma NumParenthesizedWhenPreceded(percentType: bv32, used: string, total: string, percentage: Byte,
                                     rendering: Rendering)
    requires HasBit(percentType, PERCENT_NUM_BIT)
    ensures Untrimmed(percentType, used, total, percentage, rendering) ==
      BarAndSizes(percentType, used, total, percentage, rendering) +
      rendering.num(percentage, HasBit(percentType, PERCENT_BAR_BIT) || !HasBit(percentType, PERCENT_HIDE_OTHERS_BIT))
  {
  }

  /**
   * What ffPrintMemory prints: only the error if detection failed; with no
   * output format, the key and then "Disabled" for a total of 0 or the composed
   * line, which never ends in a space; with an output format, exactly three
   * arguments: used, total, percentage.
   */
  function MemoryOutput(detected: Result<MemoryResult, string>, args: ModuleArgs, percentType: bv32,
                        rendering: Rendering): (out: Output)
    ensures detected.Failure? <==> out.ErrorPrinted?
    ensures detected.Failure? ==> out == ErrorPrinted(args, detected.error)
    ensures detected.Success? && args.outputFormat == [] ==> out.LinePrinted? && out.key == args.key
    ensures detected.Success? && args.outputFormat == [] && detected.value.bytesTotal == 0 ==> out.line == DISABLED
    ensures out.LinePrinted? ==> out.line == [] || out.line[|out.line| - 1] != ' '
    ensures detected.Success? && args.outputFormat != [] ==>
      && out.Formatted?
      && out.args == args
      && |out.formatArgs| == NUM_FORMAT_ARGS
      && out.formatArgs[0] == StrbufArg(rendering.size(detected.value.bytesUsed))
      && out.formatArgs[1] == StrbufArg(rendering.size(detected.value.bytesTotal))
      && out.formatArgs[2] == Uint8Arg(Percentage(detected.value, rendering))
  {
    match detected
    case Failure(error) => ErrorPrinted(args, error)
    case Success(storage) =>
      var used := rendering.size(storage.bytesUsed);
      var total := rendering.size(storage.bytesTotal);
      var percentage := Percentage(storage, rendering);
      if args.outputFormat == [] then
        if storage.bytesTotal == 0 then LinePrinted(args.key, DISABLED)
        else LinePrinted(args.key, TrimRight(Untrimmed(percentType, used, total, percentage, rendering)))
      else
        Formatted(args, [StrbufArg(used), StrbufArg(total), Uint8Arg(percentage)])
  }

  /** ffParseMemoryCommandOptions: refused without the module prefix, else whatever the module-args parser answers. */
  function ParseMemoryCommandOptions(args: ModuleArgs, key: string, value: string,
                                     testPrefix: (string, string) -> Option<string>,
                                     parseModuleArgs: (string, string, string, ModuleArgs) -> (bool, ModuleArgs)): (r: (bool, ModuleArgs))
    ensures testPrefix(key, MODULE_NAME).None? ==> r == (false, args)
    ensures r.0 ==> testPrefix(key, MODULE_NAME).Some?
    ensures testPrefix(key, MODULE_NAME).Some? ==>
      r == parseModuleArgs(key, testPrefix(key, MODULE_NAME).value, value, args)
  {
    match testPrefix(key, MODULE_NAME)
    case None => (false, args)
    case Some(subKey) =>
      var (ok, updated) := parseModuleArgs(key, subKey, value, args);
      if ok then (true, updated) else (false, updated)
  }

  /**
   * One member of the JSON object: "type" is skipped, a key the parser refuses
   * is reported once, and a key it accepts adds no error.
   */
  function JsonStep(pass: JsonPass, member: JsonMember,
                    parse: (string, string, ModuleArgs) -> (bool, ModuleArgs)): (r: JsonPass)
    ensures EqualsIgnoreCase(member.key, "type") ==> r == pass
    ensures !EqualsIgnoreCase(member.key, "type") ==> r.args == parse(member.key, member.value, pass.args).1
    ensures r.errors == pass.errors || r.errors == pass.errors + [ErrorPrinted(r.args, UNKNOWN_JSON_KEY + member.key)]
    ensures r.errors != pass.errors <==> !EqualsIgnoreCase(member.key, "type") && !parse(member.key, member.value, pass.args).0
  {
    if EqualsIgnoreCase(member.key, "type") then pass
    else
      var (ok, updated) := parse(member.key, member.value, pass.args);
      if ok then JsonPass(updated, pass.errors)
      else JsonPass(updated, pass.errors + [ErrorPrinted(updated, UNKNOWN_JSON_KEY + member.key)])
  }

  /** The members of the object walked in order: errors only accumulate, at most one per member. */
  function JsonKeys(pass: JsonPass, members: seq<JsonMember>,
                    parse: (string, string, ModuleArgs) -> (bool, ModuleArgs)): (r: JsonPass)
    ensures pass.errors <= r.errors
    ensures |r.errors| <= |pass.errors| + |members|
    decreases |members|
  {
    if members == [] then pass else JsonKeys(JsonStep(pass, members[0], parse), members[1..], parse)
  }

  function CountNonType(members: seq<JsonMember>): nat {
    if members == [] then 0
    else (if EqualsIgnoreCase(members[0].key, "type") then 0 else 1) + CountNonType(members[1..])
  }

  predicate IsUnknownKeyError(e: Output) {
    e.ErrorPrinted? && |e.message| >= |UNKNOWN_JSON_KEY| && e.message[..|UNKNOWN_JSON_KEY|] == UNKNOWN_JSON_KEY &&
    !EqualsIgnoreCase(e.message[|UNKNOWN_JSON_KEY|..], "type")
  }

  /** Walking two pieces one after the other is walking their concatenation. */
  lemma {:induction false} JsonKeysAppend(pass: JsonPass, xs: seq<JsonMember>, ys: seq<JsonMember>,
                                          parse: (string, string, ModuleArgs) -> (bool, ModuleArgs))
    ensures JsonKeys(pass, xs + ys, parse) == JsonKeys(JsonKeys(pass, xs, parse), ys, parse)
    decreases |xs|
  {
    if xs == [] {
      assert xs + ys == ys;
    } else {
      assert (xs + ys)[1..] == xs[1..] + ys;
      JsonKeysAppend(JsonStep(pass, xs[0], parse), xs[1..], ys, parse);
    }
  }

  /** A "type" member, in any case, has no effect wherever it stands in the object. */
  lemma TypeKeyIgnored(pass: JsonPass, xs: seq<JsonMember>, member: JsonMember, ys: seq<JsonMember>,
                       parse: (string, string, ModuleArgs) -> (bool, ModuleArgs))
    requires EqualsIgnoreCase(member.key, "type")
    ensures JsonKeys(pass, xs + [member] + ys, parse) == JsonKeys(pass, xs + ys, parse)
  {
    JsonKeysAppend(pass, xs + [member], ys, parse);
    JsonKeysAppend(pass, xs, [member], parse);
    JsonKeysAppend(pass, xs, ys, parse);
  }

  /**
   * Each member that is not "type" causes at most one error, "type" none, and
   * every error names a key other than "type".
   */
  lemma {:induction false} JsonErrorsBounded(pass: JsonPass, members: seq<JsonMember>,
                                             parse: (string, string, ModuleArgs) -> (bool, ModuleArgs))
    ensures var after := JsonKeys(pass, members, parse);
      && pass.errors <= after.errors
      && |after.errors| <= |pass.errors| + CountNonType(members)
      && forall i :: |pass.errors| <= i < |after.errors| ==> IsUnknownKeyError(after.errors[i])
    decreases |members|
  {
    if members != [] {
      var next := JsonStep(pass, members[0], parse);
      var m := members[0];
      if !EqualsIgnoreCase(m.key, "type") {
        var e := ErrorPrinted(next.args, UNKNOWN_JSON_KEY + m.key);
        assert (UNKNOWN_JSON_KEY + m.key)[..|UNKNOWN_JSON_KEY|] == UNKNOWN_JSON_KEY;
        assert (UNKNOWN_JSON_KEY + m.key)[|UNKNOWN_JSON_KEY|..] == m.key;
        assert next.errors == pass.errors || next.errors == pass.errors + [e];
      }
      JsonErrorsBounded(next, members[1..], parse);
    }
  }

  /**
   * What one more member adds to the errors: nothing when it is "type" or the
   * parser accepts it, and exactly its "Unknown JSON key" error when the parser
   * refuses it. The options carried on are the parser's, or unchanged for "type".
   */
  lemma JsonKeyReported(pass: JsonPass, xs: seq<JsonMember>, m: JsonMember,
                        parse: (string, string, ModuleArgs) -> (bool, ModuleArgs))
    ensures var before := JsonKeys(pass, xs, parse);
      var after := JsonKeys(pass, xs + [m], parse);
      var res := parse(m.key, m.value, before.args);
      && (EqualsIgnoreCase(m.key, "type") || res.0 ==> after.errors == before.errors)
      && (!EqualsIgnoreCase(m.key, "type") && !res.0 ==>
            after.errors == before.errors + [ErrorPrinted(res.1, UNKNOWN_JSON_KEY + m.key)])
      && after.args == (if EqualsIgnoreCase(m.key, "type") then before.args else res.1)
  {
    JsonKeysAppend(pass, xs, [m], parse);
  }

  /**
   * The line ffPrintMemory builds when there is no output format and the total
   * is not 0: appended piece by piece, then trimmed of trailing spaces in place.
   */
  method ComposeLine(percentType: bv32, used: string, total: string, percentage: Byte, rendering: Rendering)
    returns (line: string)
    ensures line == TrimRight(Untrimmed(percentType, used, total, percentage, rendering))
    ensures line == [] || line[|line| - 1] != ' '
  {
    var str := AppendPieces(percentType, used, total, percentage, rendering);
    line := TrimTrailingSpaces(str);
  }

  /** The appends before the trim: bar, sizes and number, each only when its bit asks for it. */
  method AppendPieces(percentType: bv32, used: string, total: string, percentage: Byte, rendering: Rendering)
    returns (str: string)
    ensures str == Untrimmed(percentType, used, total, percentage, rendering)
  {
    str := "";
    if percentType & PERCENT_BAR_BIT != 0 {
      str := str + rendering.bar(percentage);
      str := str + " ";
    }
    if percentType & PERCENT_HIDE_OTHERS_BIT == 0 {
      str := str + used + " / " + total + " ";
    }
    assert str == BarAndSizes(percentType, used, total, percentage, rendering);
    if percentType & PERCENT_NUM_BIT != 0 {
      str := str + rendering.num(percentage, |str| > 0);
    }
  }

  /** ffStrbufTrimRight(str, ' '): drops the last character while it is a space. */
  method TrimTrailingSpaces(s: string) returns (line: string)
    ensures line == TrimRight(s)
  {
    line := s;
    while |line| > 0 && line[|line| - 1] == ' '
      invariant TrimRight(line) == TrimRight(s)
      decreases |line|
    {
      line := line[..|line| - 1];
    }
  }

  /** ffPrintMemory. */
  method PrintMemory(detected: Result<MemoryResult, string>, args: ModuleArgs, percentType: bv32, rendering: Rendering)
    returns (out: Output)
    ensures out == MemoryOutput(detected, args, percentType, rendering)
  {
    if detected.Failure? {
      return ErrorPrinted(args, detected.error);
    }
    var storage := detected.value;
    var usedPretty := rendering.size(storage.bytesUsed);
    var totalPretty := rendering.size(storage.bytesTotal);
    var percentage := Percentage(storage, rendering);
    if args.outputFormat == [] {
      if storage.bytesTotal == 0 {
        out := LinePrinted(args.key, DISABLED);
      } else {
        var line := ComposeLine(percentType, usedPretty, totalPretty, percentage, rendering);
        out := LinePrinted(args.key, line);
      }
    } else {
      out := Formatted(args, [StrbufArg(usedPretty), StrbufArg(totalPretty), Uint8Arg(percentage)]);
    }
  }

  /**
   * ffParseMemoryJsonObject: walks the object's members (none when there is no
   * object), skipping "type", handing the rest to the module-args parser and
   * reporting each key it refuses; then prints the module with the options read.
   */
  method ParseMemoryJsonObject(config: Option<seq<JsonMember>>,
                               parse: (string, string, ModuleArgs) -> (bool, ModuleArgs),
                               initial: ModuleArgs, detected: Result<MemoryResult, string>,
                               percentType: bv32, rendering: Rendering)
    returns (out: seq<Output>)
    ensures var members := if config.Some? then config.value else [];
      var pass := JsonKeys(JsonPass(initial, []), members, parse);
      out == pass.errors + [MemoryOutput(detected, pass.args, percentType, rendering)]
  {
    var args := initial;
    var errors: seq<Output> := [];
    if config.Some? {
      var members := config.value;
      for i := 0 to |members|
        invariant JsonKeys(JsonPass(args, errors), members[i..], parse) == JsonKeys(JsonPass(initial, []), members, parse)
      {
        assert members[i..][1..] == members[i + 1..];
        var key := members[i].key;
        if EqualsIgnoreCase(key, "type") {
          continue;
        }
        var (ok, updated) := parse(key, members[i].value, args);
        args := updated;
        if ok {
          continue;
        }
        errors := errors + [ErrorPrinted(args, UNKNOWN_JSON_KEY + key)];
      }
    }
    var printed := PrintMemory(detected, args, percentType, rendering);
    out := errors + [printed];
  }
}
