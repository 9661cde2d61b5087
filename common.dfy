/** Shared value types of the plug-in model: failure-carrying wrappers,
    container identifiers and the container summaries the engine lists. */
module Common {

  datatype Option<T> = None | Some(value: T)

  /** A value or the error the Go code would return instead. */
  datatype Result<T, E> = Ok(value: T) | Err(error: E)

  /** An operation that returns only an error (Go's bare `error`). */
  datatype Outcome<E> = Pass | Fail(error: E)

  /** A container ID as the engine reports it (64 hexadecimal digits); the
      code slices the first twelve characters, so shorter IDs never occur. */
  type ContainerId = id: string | |id| >= 12 witness "000000000000"

  /** One entry of the engine's container listing (`container.Summary`):
      its ID and its labels. */
  datatype Container = Container(id: ContainerId, labels: map<string, string>)

  /** The 12-character short form of an ID, as used in server URLs. */
  function Short(id: ContainerId): string
  {
    id[..12]
  }

  /** The IDs of a list of containers, in order. */
  function Ids(cs: seq<Container>): (ids: seq<ContainerId>)
    ensures |ids| == |cs|
    ensures forall k :: 0 <= k < |cs| ==> ids[k] == cs[k].id
  {
    seq(|cs|, k requires 0 <= k < |cs| => cs[k].id)
  }
}
