/** What the logger persists for a committed transaction and the checkpoint for an image. */
module LogRecords {
  import opened Basics
  import opened Versions

  datatype SecondaryOp = NoOp | Add | Remove | Full

  /** One logged write: a row, a posting-list delta, or a whole posting list. */
  datatype KeyValue = KeyValue(
    table: string,
    index: string,
    indexType: nat,
    key: string,
    buffer: Bytes,
    tid: Tid,
    primaryKeys: seq<string>,
    op: SecondaryOp,
    secondaryPrimaryKey: string)

  /** An epoch-tagged group of writes. */
  datatype LogRecord = LogRecord(epoch: nat, kvps: seq<KeyValue>)
}
