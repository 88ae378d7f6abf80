/**
 * The text-extraction half of the `TwitterAPI` class: turning the status
 * objects returned by a search into the list of tweet texts.  The search call
 * itself (and the OAuth set-up in the constructor) is network I/O; its result
 * is an input here.
 */
module TwitterSearch {
  import opened Wrappers

  /**
   * A status object as returned in extended-tweet mode.  `fullText` is the
   * `full_text` attribute, which may be missing; `text` is the short text;
   * `retweetedStatus` is present exactly when the status is a retweet, and is
   * then the original status.
   */
  datatype Status = Status(fullText: Option<string>, text: string, retweetedStatus: Option<Status>)

  /** The status whose text a retweet reports: the original for a retweet, the status itself otherwise. */
  function Origin(s: Status): Status {
    match s.retweetedStatus
    case Some(original) => original
    case None => s
  }

  /**
   * `on_status`: the full text of the original for a retweet, else the
   * status's own full text; in both cases the short text when the full text
   * is missing.
   */
  function OnStatus(s: Status): (r: string)
    ensures Origin(s).fullText.Some? ==> r == Origin(s).fullText.value
    ensures Origin(s).fullText.None? ==> r == Origin(s).text
  {
    match s.retweetedStatus
    case Some(original) => original.fullText.GetOr(original.text)
    case None => s.fullText.GetOr(s.text)
  }

  /**
   * A retweet's own fields never matter, and only one level of retweet is
   * followed: the text is that of the original read as a plain status.
   */
  lemma RetweetReadsOriginalOnly(s: Status, fullText: Option<string>, text: string)
    requires s.retweetedStatus.Some?
    ensures OnStatus(s) == OnStatus(Status(fullText, text, s.retweetedStatus))
    ensures OnStatus(s) == OnStatus(Status(s.retweetedStatus.value.fullText, s.retweetedStatus.value.text, None))
  {
  }

  /** The tweet texts of a list of statuses: one per status, in the same order. */
  function Texts(statuses: seq<Status>): (r: seq<string>)
    ensures |r| == |statuses|
    ensures forall i :: 0 <= i < |statuses| ==> r[i] == OnStatus(statuses[i])
  {
    seq(|statuses|, i requires 0 <= i < |statuses| => OnStatus(statuses[i]))
  }

  /** `getTweetsText` after the search. */
  method GetTweetsText(statuses: seq<Status>) returns (tweets: seq<string>)
    ensures tweets == Texts(statuses)
  {
    tweets := [];
    for k := 0 to |statuses|
      invariant |tweets| == k
      invariant forall i :: 0 <= i < k ==> tweets[i] == OnStatus(statuses[i])
    {
      tweets := tweets + [OnStatus(statuses[k])];
    }
  }
}
