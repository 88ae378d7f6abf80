/**
 * The shapes of the two JSON replies of the Repustate service, as the
 * `RepustateAPI` class hands them back (the HTTP POSTs themselves are not
 * modelled).  Every reply carries a `status`; a failed one also carries a
 * `description`.
 */
module Repustate {

  /** The reply of `score.json`; the score is kept as an integer, only its sign is ever used. */
  datatype Sentiment = Sentiment(status: string, score: int, description: string)

  /** One entity record of `entities.json`; only its `title` is ever read. */
  datatype Entity = Entity(title: string)

  /** The reply of `entities.json`. */
  datatype EntitiesReply = EntitiesReply(status: string, entities: seq<Entity>, description: string)

  /** The status value that marks a failed request; any other value is a success. */
  const FailStatus: string := "Fail"

  predicate Failed(status: string) {
    status == FailStatus
  }
}
