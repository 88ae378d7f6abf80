/**
 * The `__main__` block once the prompts are answered: fetch the tweet texts,
 * write them out, send each one to both Repustate endpoints, sort the
 * replies into the error log or the aggregates, and run `displayTool` when
 * fewer sentiment requests failed than tweets were asked for.
 */
module Orchestrator {
  import opened Wrappers
  import opened TwitterSearch
  import opened Repustate
  import opened Display
  import opened CountInput

  /** The two replies the service gave for one tweet text. */
  datatype Reply = Reply(sentiment: Sentiment, entities: EntitiesReply)

  /** Which branch of the per-tweet `if`/`elif`/`else` a reply takes. */
  datatype Verdict = SentimentFailed | EntitiesFailed | Scored

  /**
   * The sentiment status is tested first, so a failed sentiment hides the
   * entities reply whatever it says; a tweet is scored only when neither
   * reply failed.
   */
  function VerdictOf(r: Reply): (v: Verdict)
    ensures v == SentimentFailed <==> Failed(r.sentiment.status)
    ensures v == EntitiesFailed <==> !Failed(r.sentiment.status) && Failed(r.entities.status)
    ensures v == Scored <==> !Failed(r.sentiment.status) && !Failed(r.entities.status)
  {
    if Failed(r.sentiment.status) then SentimentFailed
    else if Failed(r.entities.status) then EntitiesFailed
    else Scored
  }

  // ---------------------------------------------------------------------------
  // What the per-tweet loop should produce, reply by reply
  // ---------------------------------------------------------------------------

  /** Number of replies whose sentiment status is the failure status. */
  function SentimentFailures(replies: seq<Reply>): nat {
    if replies == [] then 0
    else SentimentFailures(replies[..|replies| - 1]) + (if Failed(replies[|replies| - 1].sentiment.status) then 1 else 0)
  }

  /** Number of replies that send their tweet to the error log. */
  function Logged(replies: seq<Reply>): nat {
    if replies == [] then 0
    else Logged(replies[..|replies| - 1]) + (if VerdictOf(replies[|replies| - 1]) != Scored then 1 else 0)
  }

  /** The sentiment replies of the scored tweets, in tweet order. */
  function ScoredSentiments(replies: seq<Reply>): seq<Sentiment> {
    if replies == [] then []
    else
      var last := replies[|replies| - 1];
      ScoredSentiments(replies[..|replies| - 1]) + (if VerdictOf(last) == Scored then [last.sentiment] else [])
  }

  /** The entity records of the scored tweets, concatenated in tweet order. */
  function CollectedEntities(replies: seq<Reply>): seq<Entity> {
    if replies == [] then []
    else
      var last := replies[|replies| - 1];
      CollectedEntities(replies[..|replies| - 1]) + (if VerdictOf(last) == Scored then last.entities.entities else [])
  }

  /** The error-log records (one per `write`) of one tweet: the tweet, then the failing reply's description. */
  function LogRecords(tweet: string, r: Reply): (records: seq<string>)
    ensures VerdictOf(r) == Scored <==> records == []
    ensures VerdictOf(r) != Scored ==> |records| == 2 && records[0] == tweet + " "
    ensures Failed(r.sentiment.status) ==> records[1] == "Sentiment request error: " + r.sentiment.description + " "
    ensures VerdictOf(r) == EntitiesFailed ==> records[1] == "Entities request error: " + r.entities.description + " "
  {
    match VerdictOf(r)
    case SentimentFailed => [tweet + " ", "Sentiment request error: " + r.sentiment.description + " "]
    case EntitiesFailed => [tweet + " ", "Entities request error: " + r.entities.description + " "]
    case Scored => []
  }

  /** The whole error log: each tweet's records, in tweet order. */
  function ErrorLog(text: seq<string>, replies: seq<Reply>): seq<string>
    requires |text| == |replies|
  {
    if replies == [] then []
    else ErrorLog(text[..|text| - 1], replies[..|replies| - 1]) + LogRecords(text[|text| - 1], replies[|replies| - 1])
  }

  // ---------------------------------------------------------------------------
  // Properties of the classification
  // ---------------------------------------------------------------------------

  /**
   * Every tweet is either scored or logged with exactly two records, and only
   * sentiment failures are counted as failures.
   */
  lemma {:induction false} ClassificationCounts(text: seq<string>, replies: seq<Reply>)
    requires |text| == |replies|
    ensures |ScoredSentiments(replies)| + Logged(replies) == |replies|
    ensures |ErrorLog(text, replies)| == 2 * Logged(replies)
    ensures SentimentFailures(replies) <= Logged(replies)
  {
    if replies != [] {
      ClassificationCounts(text[..|text| - 1], replies[..|replies| - 1]);
    }
  }

  /** An entity record is collected exactly when it comes from a scored tweet. */
  lemma {:induction false} CollectedOnlyFromScored(replies: seq<Reply>, e: Entity)
    ensures e in CollectedEntities(replies) <==>
      exists i :: 0 <= i < |replies| && VerdictOf(replies[i]) == Scored && e in replies[i].entities.entities
  {
    if replies != [] {
      var prefix := replies[..|replies| - 1];
      CollectedOnlyFromScored(prefix, e);
      if e in CollectedEntities(prefix) {
        var i :| 0 <= i < |prefix| && VerdictOf(prefix[i]) == Scored && e in prefix[i].entities.entities;
        assert replies[i] == prefix[i];
      }
      if exists i :: 0 <= i < |replies| && VerdictOf(replies[i]) == Scored && e in replies[i].entities.entities {
        var i :| 0 <= i < |replies| && VerdictOf(replies[i]) == Scored && e in replies[i].entities.entities;
        if i < |prefix| {
          assert prefix[i] == replies[i];
        }
      }
    }
  }

  /** A sentiment reply is kept exactly when it belongs to a scored tweet. */
  lemma {:induction false} ScoredOnlyFromScored(replies: seq<Reply>, s: Sentiment)
    ensures s in ScoredSentiments(replies) <==>
      exists i :: 0 <= i < |replies| && VerdictOf(replies[i]) == Scored && replies[i].sentiment == s
  {
    if replies != [] {
      var prefix := replies[..|replies| - 1];
      ScoredOnlyFromScored(prefix, s);
      if s in ScoredSentiments(prefix) {
        var i :| 0 <= i < |prefix| && VerdictOf(prefix[i]) == Scored && prefix[i].sentiment == s;
        assert replies[i] == prefix[i];
      }
      if exists i :: 0 <= i < |replies| && VerdictOf(replies[i]) == Scored && replies[i].sentiment == s {
        var i :| 0 <= i < |replies| && VerdictOf(replies[i]) == Scored && replies[i].sentiment == s;
        if i < |prefix| {
          assert prefix[i] == replies[i];
        }
      }
    }
  }

  /** When every sentiment request fails, every tweet is a failure and nothing is aggregated. */
  lemma {:induction false} AllSentimentsFailed(replies: seq<Reply>)
    requires forall i :: 0 <= i < |replies| ==> Failed(replies[i].sentiment.status)
    ensures SentimentFailures(replies) == |replies|
    ensures ScoredSentiments(replies) == [] && CollectedEntities(replies) == []
  {
    if replies != [] {
      AllSentimentsFailed(replies[..|replies| - 1]);
    }
  }

  /** On a sentiment failure the entities reply, failed or not, changes nothing that is written. */
  lemma SentimentFailureHidesEntities(tweet: string, r: Reply, other: EntitiesReply)
    requires Failed(r.sentiment.status)
    ensures LogRecords(tweet, r) == LogRecords(tweet, Reply(r.sentiment, other))
    ensures |LogRecords(tweet, r)| == 2
  {
  }

  /**
   * When every sentiment request fails, the report is skipped exactly when
   * the search returned at least as many tweets as were asked for; when it
   * returned fewer, the report still runs with nothing collected, so
   * `max` is applied to an empty dictionary and the run ends in a
   * ValueError after the first four report lines.
   */
  lemma {:induction false} AllSentimentsFailedOutcome(count: string, replies: seq<Reply>)
    requires CountAccepted(count)
    requires forall i :: 0 <= i < |replies| ==> Failed(replies[i].sentiment.status)
    ensures SentimentFailures(replies) < DigitsValue(count) <==> |replies| < DigitsValue(count)
    ensures CollectedEntities(replies) == []
    ensures forall report :: Describes(report, ScoredSentiments(replies), CollectedEntities(replies)) ==>
      report.table == map[] && report.mostFrequent.None?
  {
    AllSentimentsFailed(replies);
  }

  // ---------------------------------------------------------------------------
  // The loops of the main block
  // ---------------------------------------------------------------------------

  /** The loop over the tweet texts: two service replies per tweet, sorted into log or aggregates. */
  method ClassifyTweets(text: seq<string>, replies: seq<Reply>)
    returns (failCount: nat, score: seq<Sentiment>, titles: seq<Entity>, log: seq<string>)
    requires |replies| == |text|
    ensures failCount == SentimentFailures(replies)
    ensures score == ScoredSentiments(replies)
    ensures titles == CollectedEntities(replies)
    ensures log == ErrorLog(text, replies)
  {
    failCount, score, titles, log := 0, [], [], [];
    for k := 0 to |text|
      invariant failCount == SentimentFailures(replies[..k])
      invariant score == ScoredSentiments(replies[..k])
      invariant titles == CollectedEntities(replies[..k])
      invariant log == ErrorLog(text[..k], replies[..k])
    {
      var tweet := text[k];
      var sentiment := replies[k].sentiment;
      var entities := replies[k].entities;
      assert replies[..k + 1][..k] == replies[..k];
      assert text[..k + 1][..k] == text[..k];
      if Failed(sentiment.status) {
        failCount := failCount + 1;
        log := log + [tweet + " "];
        log := log + ["Sentiment request error: " + sentiment.description + " "];
      } else if Failed(entities.status) {
        log := log + [tweet + " "];
        log := log + ["Entities request error: " + entities.description + " "];
      } else {
        score := score + [sentiment];
        var found := entities.entities;
        for j := 0 to |found|
          invariant titles == CollectedEntities(replies[..k]) + found[..j]
        {
          assert found[..j + 1] == found[..j] + [found[j]];
          titles := titles + [found[j]];
        }
        assert found[..|found|] == found;
      }
    }
    assert replies[..|replies|] == replies;
    assert text[..|text|] == text;
  }

  /** The records written to `tweets.txt`, one per tweet: each text followed by a space. */
  method TweetsFileRecords(text: seq<string>) returns (records: seq<string>)
    ensures |records| == |text|
    ensures forall i :: 0 <= i < |text| ==> records[i] == text[i] + " "
  {
    records := [];
    for k := 0 to |text|
      invariant |records| == k
      invariant forall i :: 0 <= i < k ==> records[i] == text[i] + " "
    {
      records := records + [text[k] + " "];
    }
  }

  // ---------------------------------------------------------------------------
  // One run
  // ---------------------------------------------------------------------------

  /**
   * How a run ends: no tweet matched the query, or the tweets were analysed;
   * `report` is `None` when too many sentiment requests failed and the run
   * only points at the error log.
   */
  datatype RunOutcome =
    | NoMatch
    | Analysed(tweetsFile: seq<string>, errorLog: seq<string>, failCount: nat, report: Option<Report>)

  /**
   * The main block from the search onwards.  `statuses` is what the search
   * returned; `replies[i]` is what the two Repustate endpoints answered for
   * the i-th tweet text; `count` is the accepted answer to the count prompt.
   */
  method Run(count: string, statuses: seq<Status>, replies: seq<Reply>) returns (outcome: RunOutcome)
    requires CountAccepted(count)
    requires |replies| == |statuses|
    ensures outcome.NoMatch? <==> statuses == []
    ensures outcome.Analysed? ==>
      && |outcome.tweetsFile| == |statuses|
      && (forall i :: 0 <= i < |statuses| ==> outcome.tweetsFile[i] == OnStatus(statuses[i]) + " ")
      && outcome.errorLog == ErrorLog(Texts(statuses), replies)
      && outcome.failCount == SentimentFailures(replies)
      && (outcome.report.Some? <==> outcome.failCount < DigitsValue(count))
      && (outcome.report.Some? ==>
            Describes(outcome.report.value, ScoredSentiments(replies), CollectedEntities(replies)))
  {
    var text := GetTweetsText(statuses);
    if |text| == 0 {
      return NoMatch;
    }
    var tweetsFile := TweetsFileRecords(text);
    var failCount, score, titles, log := ClassifyTweets(text, replies);
    if failCount < DigitsValue(count) {
      var report := DisplayTool(score, titles);
      outcome := Analysed(tweetsFile, log, failCount, Some(report));
    } else {
      outcome := Analysed(tweetsFile, log, failCount, None);
    }
  }
}
