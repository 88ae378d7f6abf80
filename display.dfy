/**
 * `displayTool`: the summary printed after the per-tweet loop.  It counts
 * positive and negative scores, builds a title -> count table from the
 * collected entity records, and lists the titles of greatest count.
 */
module Display {
  import opened Wrappers
  import opened Repustate

  // ---------------------------------------------------------------------------
  // Polarity counts
  // ---------------------------------------------------------------------------

  /** Number of replies with a score above zero. */
  function Positives(score: seq<Sentiment>): nat {
    if score == [] then 0
    else Positives(score[..|score| - 1]) + (if score[|score| - 1].score > 0 then 1 else 0)
  }

  /** Number of replies with a score below zero. */
  function Negatives(score: seq<Sentiment>): nat {
    if score == [] then 0
    else Negatives(score[..|score| - 1]) + (if score[|score| - 1].score < 0 then 1 else 0)
  }

  /** Number of replies with a score of exactly zero. */
  function Neutrals(score: seq<Sentiment>): nat {
    if score == [] then 0
    else Neutrals(score[..|score| - 1]) + (if score[|score| - 1].score == 0 then 1 else 0)
  }

  /** Every reply is positive, negative or neutral, and exactly one of them. */
  lemma {:induction false} PolarityPartition(score: seq<Sentiment>)
    ensures Positives(score) + Negatives(score) + Neutrals(score) == |score|
  {
    if score != [] {
      PolarityPartition(score[..|score| - 1]);
    }
  }

  /** The first loop of `displayTool`: a zero score raises neither counter. */
  method CountPolarity(score: seq<Sentiment>) returns (positive: nat, negative: nat)
    ensures positive == Positives(score) && negative == Negatives(score)
    ensures positive + negative == |score| - Neutrals(score)
  {
    positive, negative := 0, 0;
    for i := 0 to |score|
      invariant positive == Positives(score[..i])
      invariant negative == Negatives(score[..i])
    {
      assert score[..i + 1][..i] == score[..i];
      if score[i].score > 0 {
        positive := positive + 1;
      } else if score[i].score < 0 {
        negative := negative + 1;
      }
    }
    assert score[..|score|] == score;
    PolarityPartition(score);
  }

  // ---------------------------------------------------------------------------
  // Entity frequency table
  // ---------------------------------------------------------------------------

  /** The distinct titles of a list of entity records. */
  function TitleSet(entities: seq<Entity>): set<string> {
    set e | e in entities :: e.title
  }

  /** How many records of `entities` carry the title `t`. */
  function Occurrences(entities: seq<Entity>, t: string): nat {
    if entities == [] then 0
    else Occurrences(entities[..|entities| - 1], t) + (if entities[|entities| - 1].title == t then 1 else 0)
  }

  /** `m` maps exactly the titles present in `entities`, each to its number of occurrences. */
  ghost predicate IsFrequencyTable(m: map<string, nat>, entities: seq<Entity>) {
    && m.Keys == TitleSet(entities)
    && forall t :: t in m ==> m[t] == Occurrences(entities, t)
  }

  lemma {:induction false} OccursIffPresent(entities: seq<Entity>, t: string)
    ensures Occurrences(entities, t) > 0 <==> t in TitleSet(entities)
  {
    if entities != [] {
      var prefix := entities[..|entities| - 1];
      assert entities == prefix + [entities[|entities| - 1]];
      assert TitleSet(entities) == TitleSet(prefix) + {entities[|entities| - 1].title};
      OccursIffPresent(prefix, t);
    }
  }

  /** The second loop of `displayTool`: the dictionary of title counts, updated in place. */
  method Frequencies(entities: seq<Entity>) returns (titles: map<string, nat>)
    ensures IsFrequencyTable(titles, entities)
  {
    titles := map[];
    for i := 0 to |entities|
      invariant IsFrequencyTable(titles, entities[..i])
    {
      var t := entities[i].title;
      assert entities[..i + 1] == entities[..i] + [entities[i]];
      assert entities[..i + 1][..i] == entities[..i];
      assert TitleSet(entities[..i + 1]) == TitleSet(entities[..i]) + {t};
      if t !in titles {
        OccursIffPresent(entities[..i], t);
        titles := titles[t := 1];
      } else {
        titles := titles[t := titles[t] + 1];
      }
    }
    assert entities[..|entities|] == entities;
  }

  /** Some key of a non-empty map. */
  ghost function AnyKey(m: map<string, nat>): string
    requires m != map[]
  {
    var k :| k in m; k
  }

  /** The sum of the values of a map (in no particular key order). */
  ghost function Total(m: map<string, nat>): nat
    decreases |m|
  {
    if m == map[] then 0
    else m[AnyKey(m)] + Total(m - {AnyKey(m)})
  }

  /** `Total` does not depend on which key is taken out first. */
  lemma {:induction false} TotalRemove(m: map<string, nat>, k: string)
    requires k in m
    ensures Total(m) == m[k] + Total(m - {k})
    decreases |m|
  {
    var j := AnyKey(m);
    if j != k {
      assert |(m - {k}).Keys| < |m.Keys|;
      TotalRemove(m - {j}, k);
      TotalRemove(m - {k}, j);
      assert m - {j} - {k} == m - {k} - {j};
    }
  }

  /** The counts of a frequency table add up to the number of entity records. */
  lemma {:induction false} TableTotal(entities: seq<Entity>, m: map<string, nat>)
    requires IsFrequencyTable(m, entities)
    ensures Total(m) == |entities|
    decreases |entities|
  {
    if entities == [] {
      assert m.Keys == {};
      assert m == map[];
    } else {
      var prefix := entities[..|entities| - 1];
      var t := entities[|entities| - 1].title;
      assert entities == prefix + [entities[|entities| - 1]];
      assert TitleSet(entities) == TitleSet(prefix) + {t};
      OccursIffPresent(prefix, t);
      TotalRemove(m, t);
      if Occurrences(prefix, t) == 0 {
        var m' := m - {t};
        forall u | u in m' ensures m'[u] == Occurrences(prefix, u) { }
        assert IsFrequencyTable(m', prefix);
        TableTotal(prefix, m');
      } else {
        var m' := m[t := m[t] - 1];
        forall u | u in m' ensures m'[u] == Occurrences(prefix, u) { }
        assert IsFrequencyTable(m', prefix);
        TableTotal(prefix, m');
        TotalRemove(m', t);
        assert m' - {t} == m - {t};
      }
    }
  }

  /** There are never more distinct titles than entity records. */
  lemma {:induction false} TitleSetBound(entities: seq<Entity>)
    ensures |TitleSet(entities)| <= |entities|
  {
    if entities != [] {
      var prefix := entities[..|entities| - 1];
      assert entities == prefix + [entities[|entities| - 1]];
      assert TitleSet(entities) == TitleSet(prefix) + {entities[|entities| - 1].title};
      TitleSetBound(prefix);
    }
  }

  // ---------------------------------------------------------------------------
  // Most frequent titles
  // ---------------------------------------------------------------------------

  /** `r` holds exactly the keys of `m` whose count is the greatest count in `m`. */
  ghost predicate IsMostFrequent(m: map<string, nat>, r: set<string>) {
    && r <= m.Keys
    && forall t :: t in m ==> (t in r <==> IsMaxKey(m, t))
  }

  /** `t` is a key of `m` whose count no other key exceeds. */
  ghost predicate IsMaxKey(m: map<string, nat>, t: string) {
    t in m && forall u :: u in m ==> m[u] <= m[t]
  }

  /** A non-empty table always has a key of greatest count. */
  lemma {:induction false} MaximumAttained(m: map<string, nat>)
    requires m != map[]
    ensures exists t :: IsMaxKey(m, t)
    decreases |m|
  {
    var k := AnyKey(m);
    var rest := m - {k};
    if rest == map[] {
      forall u | u in m ensures m[u] <= m[k] {
        assert u !in rest;
      }
      assert IsMaxKey(m, k);
    } else {
      MaximumAttained(rest);
      var t :| IsMaxKey(rest, t);
      var best := if m[t] < m[k] then k else t;
      forall u | u in m ensures m[u] <= m[best] {
        if u != k {
          assert u in rest;
        }
      }
      assert IsMaxKey(m, best);
    }
  }

  /** `max(titles.values())`; `None` stands for the ValueError `max` raises on an empty table. */
  method MaxCount(m: map<string, nat>) returns (mx: Option<nat>)
    ensures mx.None? <==> m == map[]
    ensures mx.Some? ==> (exists t :: t in m && m[t] == mx.value) && forall t :: t in m ==> m[t] <= mx.value
  {
    var keys := m.Keys;
    mx := None;
    while keys != {}
      invariant keys <= m.Keys
      invariant mx.None? <==> keys == m.Keys
      invariant mx.Some? ==> exists t :: t in m.Keys - keys && m[t] == mx.value
      invariant mx.Some? ==> forall t :: t in m.Keys - keys ==> m[t] <= mx.value
      decreases keys
    {
      var k :| k in keys;
      if mx.None? || m[k] > mx.value {
        mx := Some(m[k]);
      }
      keys := keys - {k};
    }
  }

  /** The "most frequent entity" list: every title whose count equals the maximum. */
  method MostFrequent(m: map<string, nat>) returns (r: Option<set<string>>)
    ensures r.None? <==> m == map[]
    ensures r.Some? ==> IsMostFrequent(m, r.value) && r.value != {}
  {
    var mx := MaxCount(m);
    if mx.None? {
      return None;
    }
    var top := set t | t in m && m[t] == mx.value;
    r := Some(top);
  }

  // ---------------------------------------------------------------------------
  // The report
  // ---------------------------------------------------------------------------

  /**
   * What `displayTool` prints and writes: the number of scored tweets, the
   * positive and negative counts, the title table written to `record.txt`,
   * the unique-entity count, and the most frequent titles (`None` when the
   * table is empty and `max` fails after the first four lines were printed).
   */
  datatype Report = Report(
    total: nat,
    positive: nat,
    negative: nat,
    table: map<string, nat>,
    uniqueEntities: nat,
    mostFrequent: Option<set<string>>)

  /** `report` is the summary of the successful replies `score` and the collected `entities`. */
  ghost predicate Describes(report: Report, score: seq<Sentiment>, entities: seq<Entity>) {
    && report.total == |score|
    && report.positive == Positives(score)
    && report.negative == Negatives(score)
    && IsFrequencyTable(report.table, entities)
    && report.uniqueEntities == |report.table|
    && (report.mostFrequent.None? <==> entities == [])
    && (report.mostFrequent.Some? ==> IsMostFrequent(report.table, report.mostFrequent.value))
  }

  /** `displayTool(score, entities)`. */
  method DisplayTool(score: seq<Sentiment>, entities: seq<Entity>) returns (report: Report)
    ensures Describes(report, score, entities)
  {
    var positive, negative := CountPolarity(score);
    var titles := Frequencies(entities);
    if entities != [] {
      assert entities[0].title in titles;
    }
    var top := MostFrequent(titles);
    report := Report(|score|, positive, negative, titles, |titles|, top);
  }

  /**
   * What any report satisfies: the two counters never exceed the number of
   * scored tweets, the table's counts sum to the number of entity records,
   * the unique-entity count is the number of distinct titles, and the most
   * frequent list is never empty.
   */
  lemma ReportConsistent(report: Report, score: seq<Sentiment>, entities: seq<Entity>)
    requires Describes(report, score, entities)
    ensures report.positive + report.negative <= report.total
    ensures Total(report.table) == |entities|
    ensures report.uniqueEntities == |TitleSet(entities)| <= |entities|
    ensures report.mostFrequent.Some? ==> report.mostFrequent.value != {}
  {
    PolarityPartition(score);
    TableTotal(entities, report.table);
    TitleSetBound(entities);
    if report.mostFrequent.Some? {
      MaximumAttained(report.table);
    }
  }

  /** Two frequency tables of the same records are equal; so are two most-frequent sets of one table. */
  lemma ReportDetermined(m1: map<string, nat>, m2: map<string, nat>, entities: seq<Entity>, r1: set<string>, r2: set<string>)
    requires IsFrequencyTable(m1, entities) && IsFrequencyTable(m2, entities)
    requires IsMostFrequent(m1, r1) && IsMostFrequent(m1, r2)
    ensures m1 == m2 && r1 == r2
  {
  }

  /** Scores 1, -1, 0 with entity titles X, X, Y: one positive, one negative, {X: 2, Y: 1}, most frequent {X}. */
  lemma ThreeTweetExample()
    ensures
      var score := [Sentiment("OK", 1, ""), Sentiment("OK", -1, ""), Sentiment("OK", 0, "")];
      var entities := [Entity("X"), Entity("X"), Entity("Y")];
      var table := map["X" := 2, "Y" := 1];
      Describes(Report(3, 1, 1, table, 2, Some({"X"})), score, entities)
  {
    var score := [Sentiment("OK", 1, ""), Sentiment("OK", -1, ""), Sentiment("OK", 0, "")];
    var entities := [Entity("X"), Entity("X"), Entity("Y")];
    assert entities[..2] == [Entity("X"), Entity("X")];
    assert entities[..2][..1] == [Entity("X")];
    assert Occurrences(entities[..2][..1], "X") == 1 && Occurrences(entities[..2][..1], "Y") == 0;
    assert Occurrences(entities[..2], "X") == 2 && Occurrences(entities[..2], "Y") == 0;
    assert Occurrences(entities, "X") == 2 && Occurrences(entities, "Y") == 1;
    assert score[..2] == [Sentiment("OK", 1, ""), Sentiment("OK", -1, "")];
    assert score[..2][..1] == [Sentiment("OK", 1, "")];
    assert Positives(score[..2][..1]) == 1 && Negatives(score[..2][..1]) == 0;
    assert Positives(score[..2]) == 1 && Negatives(score[..2]) == 1;
    assert TitleSet(entities) == {"X", "Y"};
  }
}
