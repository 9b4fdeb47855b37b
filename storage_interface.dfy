/** The data types shared by every storage adaptor and by the SwitchKit
    client (packages/storage-interface/src/index.ts). The `StorageAdaptor`
    and `Storage` interfaces themselves are the method signatures of the
    two classes that implement them. */
module StorageInterface {
  import opened Wrappers

  /** A metadata value: a string, a number or a boolean; never nested.
      JavaScript numbers are modelled by their integral values. */
  datatype Scalar = Str(s: string) | Num(n: int) | Bool(b: bool)

  /** `SwitchMetadata`: a flat record from names to scalars. */
  type SwitchMetadata = map<string, Scalar>

  /** A switch always has a string value; its metadata may be absent
      (`None`), which is not the same as an empty record (`Some(map[])`). */
  datatype Switch = Switch(value: string, metadata: Option<SwitchMetadata>)

  /** The `metadata = {}` default of both `set` implementations. */
  function MetadataOrEmpty(metadata: Option<SwitchMetadata>): SwitchMetadata
  {
    match metadata
    case Some(m) => m
    case None => map[]
  }
}
