/**
  The interface of the analyzer (services/analyzer.py): language rules propose categories and facts, and one
  identity per category is attached to them. The rules and the identity extraction are parameters.
 */
module Analyzer {
  import opened Contracts
  import opened Sequences

  /** What the language rules find in one event, in order and possibly with repeated categories. */
  datatype RawAnalysis = RawAnalysis(categories: seq<Category>, facts: seq<Proposed>)

  datatype Rules = Rules(extract: Event -> RawAnalysis, identify: (Category, Event, seq<Proposed>) -> ProblemIdentity)

  function KeyOf(detected: seq<Detected>, c: Category): Option<string> {
    var i := FirstIndex(detected, (d: Detected) => d.category == c);
    if i.None? then None else Some(detected[i.value].key)
  }

  /** The detection of category c: the event is its evidence, its identity comes from the identity extraction. */
  function DetectedAs(rules: Rules, e: Event, raw: RawAnalysis, c: Category): Detected {
    var identity := rules.identify(c, e, raw.facts);
    Detected(c, e.id, identity.key, identity.anchored)
  }

  /** One detection per category, filed under the identity of the event. */
  function Identified(rules: Rules, e: Event, raw: RawAnalysis, n: nat): (r: seq<Detected>)
    requires n <= |raw.categories|
    ensures forall i, j | 0 <= i < j < |r| :: r[i].category != r[j].category
    ensures forall k | 0 <= k < n :: exists d :: d in r && d.category == raw.categories[k]
    ensures forall d | d in r :: d.category in raw.categories[..n] && d == DetectedAs(rules, e, raw, d.category)
  {
    if n == 0 then []
    else
      var front, c := Identified(rules, e, raw, n - 1), raw.categories[n - 1];
      if KeyOf(front, c).Some? then front
      else
        front + [DetectedAs(rules, e, raw, c)]
  }

  /** Facts of a detected category carry its key; all others are left without one. */
  function Keyed(detected: seq<Detected>, facts: seq<Proposed>): (r: seq<Proposed>)
    ensures |r| == |facts|
    ensures forall i | 0 <= i < |r| :: r[i] == facts[i].(key := KeyOf(detected, facts[i].category))
  {
    if facts == [] then []
    else
      var pf := facts[|facts| - 1];
      Keyed(detected, facts[..|facts| - 1]) + [pf.(key := KeyOf(detected, pf.category))]
  }

  function Analyze(rules: Rules, e: Event): AnalysisResult {
    if !e.isFinal then AnalysisResult([], [])
    else
      var raw := rules.extract(e);
      var detected := Identified(rules, e, raw, |raw.categories|);
      AnalysisResult(detected, Keyed(detected, raw.facts))
  }

  /** A final event detects one identity for each category the rules name. */
  lemma {:induction false} DetectionsAre(rules: Rules, e: Event, dp: Detected)
    requires e.isFinal
    ensures var raw := rules.extract(e);
            var identity := rules.identify(dp.category, e, raw.facts);
            dp in Analyze(rules, e).pains <==>
            dp.category in raw.categories && dp == Detected(dp.category, e.id, identity.key, identity.anchored)
  {
    var raw := rules.extract(e);
    assert raw.categories[..|raw.categories|] == raw.categories;
    if dp.category in raw.categories {
      var k :| 0 <= k < |raw.categories| && raw.categories[k] == dp.category;
    }
  }

  /** No two proposed facts of one event name the same slot of the same category. */
  predicate OneFactPerSlot(facts: seq<Proposed>) {
    forall i, j | 0 <= i < j < |facts| :: facts[i].category != facts[j].category || facts[i].slot != facts[j].slot
  }
}
