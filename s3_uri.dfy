/** The `s3://bucket/key` locator that both the RFI app
    (`upload_to_s3`) and the document-processor Lambda (`upload_document`)
    build for a stored object. */
module S3Uri {

  const Scheme: string := "s3://"

  /** `f"s3://{bucket}/{key}"` */
  function Url(bucket: string, key: string): (u: string)
    ensures |u| == |Scheme| + |bucket| + 1 + |key|
    ensures u[..|Scheme|] == Scheme
    ensures u[|Scheme| + |bucket|] == '/' && u[|u| - |key|..] == key
  {
    Scheme + bucket + "/" + key
  }
}
