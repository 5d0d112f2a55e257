/** An event as the clients see it: an immutable record. Its clones are kept account of by those who make them. */
module Events {
  import opened Common

  type uint8 = n: int | 0 <= n < 256

  datatype EventData = EventData(
    bytes: seq<uint8>, partitionKey: Option<string>, properties: seq<(seq<uint8>, seq<uint8>)>)
}
