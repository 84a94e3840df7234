/**
 * `get_offers_count`: how one reply of the application-status endpoint is
 * classified as an authentication failure, a failed reading, or an offer count.
 * The HTTP request itself, and the decoding of the body (the UTF-8 attempt and
 * the ordered fallback list of encodings), are the transport's business: a
 * reply arrives with its status code, its text, its content type and the JSON
 * object that decoding produced, if any.
 */
module Poller {
  import opened Wrappers
  import opened Text

  /** A JSON value as the offer fields hold it: an integer or `null`. */
  datatype JsonValue = Null | Number(n: int)

  /** A decoded JSON object body. */
  type JsonObject = map<string, JsonValue>

  /**
   * The outcome of the status request: no reply at all (timeout, connection
   * error), or a reply. `json` is the object that the first successful decoding
   * of the body produced, or `None` when no decoding yields an object.
   */
  datatype HttpOutcome =
    | NoReply
    | Reply(status: int, text: string, contentType: string, json: Option<JsonObject>)

  /** What `get_offers_count` returns: `'AUTH_FAILED'`, `None`, or an integer. */
  datatype FetchResult = AuthFailed | NoCount | Offers(count: int)

  const StatusOk: int := 200
  const StatusUnauthorized: int := 401
  const PrimaryField: string := "numberOfOffersMade"
  const FallbackField: string := "totalOffers"
  const JsonType: string := "application/json"
  const PlainTextType: string := "text/plain"

  /** `data.get('numberOfOffersMade', data.get('totalOffers', 0))`. */
  function OfferField(data: JsonObject): (v: JsonValue)
    ensures PrimaryField in data ==> v == data[PrimaryField]
    ensures PrimaryField !in data && FallbackField in data ==> v == data[FallbackField]
    ensures PrimaryField !in data && FallbackField !in data ==> v == Number(0)
  {
    if PrimaryField in data then data[PrimaryField]
    else if FallbackField in data then data[FallbackField]
    else Number(0)
  }

  /** The content type, lower-cased, names JSON or plain text. */
  predicate AcceptedContentType(contentType: string)
  {
    Contains(Lower(contentType), JsonType) || Contains(Lower(contentType), PlainTextType)
  }

  /**
   * A content type is accepted exactly when one of the two media types occurs
   * somewhere in it, in any ASCII letter case.
   */
  lemma AcceptedContentTypeOccurs(contentType: string)
    ensures AcceptedContentType(contentType) <==>
      (exists i :: OccursAt(Lower(contentType), JsonType, i))
      || (exists i :: OccursAt(Lower(contentType), PlainTextType, i))
  {
    ContainsOccurs(Lower(contentType), JsonType);
    ContainsOccurs(Lower(contentType), PlainTextType);
    assert Contains(Lower(contentType), JsonType) <==> exists i :: OccursAt(Lower(contentType), JsonType, i);
  }

  /**
   * Classifies a reply: 200 with a non-blank body of an accepted content type
   * that decodes to an object is read through the field fallback (a `null`
   * there is no reading); 401 is an authentication failure; every other
   * outcome is a failed reading.
   */
  function Classify(reply: HttpOutcome): (r: FetchResult)
    ensures r == AuthFailed <==> reply.Reply? && reply.status == StatusUnauthorized
    ensures r.Offers? <==>
      && reply.Reply? && reply.status == StatusOk
      && !IsBlank(reply.text)
      && AcceptedContentType(reply.contentType)
      && reply.json.Some? && OfferField(reply.json.value).Number?
    ensures r.Offers? ==>
      var data := reply.json.value;
      || (PrimaryField in data && data[PrimaryField] == Number(r.count))
      || (PrimaryField !in data && FallbackField in data && data[FallbackField] == Number(r.count))
      || (PrimaryField !in data && FallbackField !in data && r.count == 0)
  {
    match reply
    case NoReply => NoCount
    case Reply(status, text, contentType, json) =>
      if status == StatusOk then
        if IsBlank(text) then NoCount
        else if !AcceptedContentType(contentType) then NoCount
        else
          match json
          case None => NoCount
          case Some(data) =>
            match OfferField(data)
            case Null => NoCount
            case Number(n) => Offers(n)
      else if status == StatusUnauthorized then AuthFailed
      else NoCount
  }
}
