/** The status codes and JSON bodies the handlers answer with. */
module Http {
  import opened LeadSchema
  import opened GalleryRecord

  /** Which property of a failure body carries the text: `message` or `error`. */
  datatype TextKey = MessageKey | ErrorKey

  /** Why a request failed: a fixed text, a rejected document, or a clash on the unique `_id` index. */
  datatype Reason = Text(text: string) | Invalid(error: SchemaError) | DuplicateKey(id: string)

  /** The JSON body of a response; every success body also has `success: true`, every failure `success: false`. */
  datatype Body =
    | Failure(key: TextKey, reason: Reason)
    | Done(message: string)
    | Created(message: string, lead: Lead)
    | Listing(count: nat, data: seq<Lead>)
    | Issued(token: string)
    | Images(images: seq<GalleryImage>)
    | Denied  // answered by the auth middleware, whose body is not part of this model

  datatype Response = Response(status: nat, body: Body) {
    /** `res.ok` on the client: a 2xx status. */
    predicate Ok() {
      200 <= status < 300
    }
  }
}
