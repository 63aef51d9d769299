/** The `estimate` command's mapping from recommendation type to a size-bucket exit code. */
module Estimate {
  import opened Wrappers

  const BucketSmall: nat := 1
  const BucketMedium: nat := 2
  const BucketLarge: nat := 3

  /** The recommendation types for which an estimate would have to be computed. */
  const ResourceHungry: set<string> := {"stable", "performance", "security", "testing"}

  /**
   * The exit code `estimate` ends with, or None when it returns normally after handing a
   * resource-hungry type to the (empty) estimator.
   */
  function ExitCode(recommendationType: string): (r: Option<nat>)
    ensures r == Some(BucketSmall) <==> recommendationType == "latest"
    ensures r == None <==> recommendationType in ResourceHungry
    ensures r == Some(BucketLarge) <==> recommendationType != "latest" && recommendationType !in ResourceHungry
  {
    if recommendationType == "latest" then Some(BucketSmall)
    else if recommendationType in ResourceHungry then None
    else Some(BucketLarge)
  }

  /** Every exit code is a bucket, and the medium bucket is never chosen. */
  lemma ExitCodeIsBucket(recommendationType: string)
    ensures ExitCode(recommendationType) in {Some(BucketSmall), Some(BucketLarge), None}
    ensures ExitCode(recommendationType) != Some(BucketMedium)
  {
  }
}
