/**
 * The two JSON documents the dispatcher writes into, kept abstract: a document
 * is a sequence of records, a record a list of string members plus a marker for
 * whatever the module's own generator adds (which this model does not look into).
 */
module JsonDoc {
  import opened Wrappers

  datatype Member = Member(key: string, value: string)

  /**
   * What a module's generateJsonConfig / generateJsonResult put into a record:
   * nothing, the named module's own fields, or the options of a `--set` value.
   */
  datatype Generated = NotGenerated | ByModule(name: string) | ByCustom(key: string, format: string)

  datatype Record = Record(members: seq<Member>, generated: Generated)

  /** The migrate-config document: the root's "modules" array, absent until the first module is added. */
  datatype ConfigDoc = ConfigDoc(modules: Option<seq<Record>>)

  function ModulesOf(doc: ConfigDoc): seq<Record> {
    match doc.modules
    case None => []
    case Some(records) => records
  }

  /** Adds a record to "modules", creating the array first when the root has none. */
  function AddModule(doc: ConfigDoc, record: Record): (r: ConfigDoc)
    ensures r.modules.Some?
    ensures ModulesOf(r) == ModulesOf(doc) + [record]
  {
    match doc.modules
    case None => ConfigDoc(Some([record]))
    case Some(records) => ConfigDoc(Some(records + [record]))
  }

  predicate HasMember(record: Record, key: string) {
    exists m | m in record.members :: m.key == key
  }
}
