/** What the two edge functions (`upload-to-r2`, `generate-presigned-url`)
    share besides the signer: the five storage settings, JavaScript truthiness
    of request fields, the URL library and the ambient clock and randomness. */
module Edge {
  import opened Wrappers
  import opened UtcDate

  /** `R2_ENDPOINT`, `R2_ACCESS_KEY_ID`, `R2_SECRET_ACCESS_KEY`, `R2_BUCKET_NAME`
      and `R2_PUBLIC_URL`, each read as `Deno.env.get(name) || ""`. */
  datatype StorageConfig = StorageConfig(
    endpoint: string,
    accessKeyId: string,
    secretAccessKey: string,
    bucketName: string,
    publicBaseUrl: string)
  {
    /** No setting is empty: the handlers refuse to sign otherwise. */
    predicate Complete() {
      endpoint != "" && accessKeyId != "" && secretAccessKey != "" && bucketName != "" && publicBaseUrl != ""
    }
  }

  /** A request field JavaScript treats as true: present and non-empty. */
  predicate Truthy(field: Option<string>) {
    field.Some? && field.value != ""
  }

  /** The WHATWG `URL` object as the handlers use it, not modelled: the host
      of `new URL(endpoint)` (abrupt when the endpoint does not parse), the
      pathname read back after assigning a raw path to the endpoint's URL
      (which depends on the endpoint: its scheme decides how `\` is read, and
      an opaque path ignores the assignment), and the serialised URL after
      that assignment. */
  datatype UrlLib = UrlLib(
    host: string -> Completion<string>,
    pathname: (string, string) -> string,
    href: (string, string) -> string)

  /** The non-deterministic inputs of one request: `Date.now()` for the key,
      the `Math.random()` token, and the separate `new Date()` the signer reads. */
  datatype Ambient = Ambient(nowMillis: nat, randomToken: string, now: UtcInstant)

  /** The one ACL both handlers sign: `x-amz-acl: public-read`. */
  const PublicRead: string := "public-read"

  /** `/{bucket}/{key}`: the raw path assigned to the endpoint URL. */
  function ObjectPath(bucketName: string, key: string): string {
    "/" + bucketName + "/" + key
  }
}
