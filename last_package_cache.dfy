/** The consumer's single-slot cache of the most recently consumed package. */
module LastPackageCache {
  import opened Wrappers
  import opened ConsumerModels

  class Cache {
    var lastPackage: Option<ConsumedPackage>

    /** A new cache holds nothing. */
    constructor ()
      ensures lastPackage == None
    {
      lastPackage := None;
    }

    /** `GetLastPackage`: reads the slot and changes nothing. */
    method GetLastPackage() returns (p: Option<ConsumedPackage>)
      ensures p == lastPackage
    {
      p := lastPackage;
    }

    /** `SetLastPackage`: overwrites the slot, keeping no history. */
    method SetLastPackage(package: ConsumedPackage)
      modifies this
      ensures lastPackage == Some(package)
    {
      lastPackage := Some(package);
    }
  }
}
