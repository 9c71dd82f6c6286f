/** What schema introspection reports about one column. */
module Schema {
  import opened Wrappers
  import DoctrineType

  /**
   * A column as the introspection collaborator hands it over: its name, its
   * canonical storage tag and its numeric precision (`null` when the database
   * reports none).
   */
  datatype Column = Column(name: string, tag: DoctrineType.Tag, precision: Option<int>)

  /** The name of every column, in order. */
  function Names(cols: seq<Column>): (ns: seq<string>)
    ensures |ns| == |cols|
    ensures forall i :: 0 <= i < |cols| ==> ns[i] == cols[i].name
  {
    seq(|cols|, i requires 0 <= i < |cols| => cols[i].name)
  }

  /** Table columns never share a name. */
  predicate UniqueNames(cols: seq<Column>) {
    forall i, j :: 0 <= i < j < |cols| ==> cols[i].name != cols[j].name
  }
}
