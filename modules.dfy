/**
 * The module registry ffModuleInfos: one bucket per upper-case letter, each an
 * ordered list of module descriptors (FFModuleBaseInfo). A module is found by
 * the upper-cased first letter of the token and then by a case-insensitive
 * comparison of the whole name; the first module that matches wins.
 */
module Modules {
  import opened Wrappers
  import opened Ascii

  /**
   * FFModuleBaseInfo, reduced to what the dispatcher looks at: the name and
   * whether the module provides generateJsonConfig and generateJsonResult.
   * Its printModule and parseCommandOptions callbacks stay outside the model.
   */
  datatype ModuleInfo = ModuleInfo(name: string, hasJsonConfig: bool, hasJsonResult: bool)

  /** ffModuleInfos; a letter without an entry stands for an empty bucket. */
  type Registry = map<char, seq<ModuleInfo>>

  function Bucket(registry: Registry, letter: char): seq<ModuleInfo> {
    if letter in registry then registry[letter] else []
  }

  /** Every module sits in the bucket of its own upper-cased first letter. */
  ghost predicate WellFormed(registry: Registry) {
    forall letter, m | letter in registry && m in registry[letter] ::
      |m.name| > 0 && IsAlpha(m.name[0]) && ToUpper(m.name[0]) == letter
  }

  /** Index of the first module in `bucket` whose name equals `token` ignoring case. */
  function FirstNamed(bucket: seq<ModuleInfo>, token: string): (r: Option<nat>)
    ensures r.Some? ==> r.value < |bucket| && EqualsIgnoreCase(token, bucket[r.value].name)
    ensures r.Some? ==> forall j :: 0 <= j < r.value ==> !EqualsIgnoreCase(token, bucket[j].name)
    ensures r.None? <==> forall j :: 0 <= j < |bucket| ==> !EqualsIgnoreCase(token, bucket[j].name)
  {
    if bucket == [] then None
    else if EqualsIgnoreCase(token, bucket[0].name) then Some(0)
    else match FirstNamed(bucket[1..], token)
      case None => None
      case Some(i) => Some(i + 1)
  }

  /** The bucket ffParseModuleCommand searches for `token`; none when its first character is no letter. */
  function BucketFor(registry: Registry, token: string): Option<seq<ModuleInfo>> {
    if |token| == 0 || !IsAlpha(token[0]) then None
    else Some(Bucket(registry, ToUpper(token[0])))
  }

  /**
   * The module ffParseModuleCommand dispatches for `token`: nothing when the
   * first character is not a letter, otherwise the first case-insensitive name
   * match in the bucket of the upper-cased first letter.
   */
  function FindModule(registry: Registry, token: string): (r: Option<ModuleInfo>)
    ensures |token| == 0 || !IsAlpha(token[0]) ==> r.None?
    ensures r.Some? ==> EqualsIgnoreCase(token, r.value.name)
    ensures r.Some? ==> r.value in Bucket(registry, ToUpper(token[0]))
  {
    match BucketFor(registry, token)
    case None => None
    case Some(bucket) =>
      match FirstNamed(bucket, token)
      case None => None
      case Some(i) => Some(bucket[i])
  }

  /**
   * Bucketing loses nothing: in a well-formed registry the bucketed lookup finds
   * a module exactly when some registered module, in any bucket, has the
   * token's name up to case.
   */
  lemma FindModuleComplete(registry: Registry, token: string)
    requires WellFormed(registry)
    ensures FindModule(registry, token).Some? <==>
      exists letter, m :: letter in registry && m in registry[letter] && EqualsIgnoreCase(token, m.name)
  {
    if letter, m :| letter in registry && m in registry[letter] && EqualsIgnoreCase(token, m.name) {
      assert ToLower(token[0]) == ToLower(m.name[0]);
      ToLowerEqualToUpperEqual(token[0], m.name[0]);
      var bucket := Bucket(registry, ToUpper(token[0]));
      assert bucket == registry[letter];
      var j :| 0 <= j < |bucket| && bucket[j] == m;
      assert FirstNamed(bucket, token).Some?;
    }
  }

  /** ffParseModuleOptions' guard: the key starts with "--" and its third character is a letter. */
  predicate IsModuleOptionKey(key: string) {
    |key| >= 3 && key[..2] == "--" && IsAlpha(key[2])
  }

  /** Index of the first module in `bucket` whose parseCommandOptions accepts the option. */
  function FirstAccepting(bucket: seq<ModuleInfo>, key: string, value: string,
                          accepts: (ModuleInfo, string, string) -> bool): (r: Option<nat>)
    ensures r.Some? ==> r.value < |bucket| && accepts(bucket[r.value], key, value)
    ensures r.Some? ==> forall j :: 0 <= j < r.value ==> !accepts(bucket[j], key, value)
    ensures r.None? <==> forall j :: 0 <= j < |bucket| ==> !accepts(bucket[j], key, value)
  {
    if bucket == [] then None
    else if accepts(bucket[0], key, value) then Some(0)
    else match FirstAccepting(bucket[1..], key, value, accepts)
      case None => None
      case Some(i) => Some(i + 1)
  }
}
