/** Scoring a document against all rules, alone and in parallel. */
module DlpEngine {
  import opened Basics
  import opened DlpScan
  import opened Encoding
  import opened Permute
  import Luhn

  datatype LeakType = Passport | CreditCard | ConfidentialKeyword | SourceCode

  datatype Severity = Low | Medium | High | Critical

  datatype Detection = Detection(leakType: LeakType, matchedText: string, scoreImpact: u32)

  datatype AnalysisResult = AnalysisResult(isViolation: bool, totalScore: u32, severity: Severity,
                                           detections: seq<Detection>)

  /** A regular expression is given by the matches it finds in a text. */
  datatype Rule =
    | Signature(find: string -> seq<string>, leakType: LeakType, score: u32)
    | Dictionary(words: map<string, u32>, leakType: LeakType)

  /** Keywords are nonempty: an empty one would never let the scan advance. */
  predicate RuleOk(r: Rule) { r.Dictionary? ==> "" !in r.words }

  ghost predicate RulesOk(rules: seq<Rule>) { forall i :: 0 <= i < |rules| ==> RuleOk(rules[i]) }

  /** No word of the rule makes the scan of the text panic. */
  ghost predicate Scans(lower: Lowering, r: Rule, text: string) {
    r.Dictionary? ==> forall w :: w in r.words && w != "" ==> Outcome(lower, text, w).Some?
  }

  ghost predicate AllScan(lower: Lowering, rules: seq<Rule>, text: string) {
    forall i :: 0 <= i < |rules| ==> Scans(lower, rules[i], text)
  }

  /** Detections with one type and weight. */
  function Marked(texts: seq<string>, t: LeakType, score: u32): seq<Detection> {
    if texts == [] then [] else [Detection(t, texts[0], score)] + Marked(texts[1..], t, score)
  }

  /** Matches of a card rule count only if they pass the card number check. */
  function Accepted(matches: seq<string>, t: LeakType): seq<string> {
    if matches == [] then []
    else (if t.CreditCard? && !Luhn.Validate(matches[0]) then [] else [matches[0]]) + Accepted(matches[1..], t)
  }

  /** What a dictionary rule detects for one of its words. */
  function WordDetections(lower: Lowering, r: Rule, text: string): string -> seq<Detection>
    requires r.Dictionary?
  {
    w =>
      if w in r.words && w != "" && Outcome(lower, text, w).Some?
      then Marked(Outcome(lower, text, w).value, r.leakType, r.words[w])
      else []
  }

  /** An order in which the hash map may yield its words: each exactly once. */
  ghost predicate OrderOf(r: Rule, order: seq<string>) {
    r.Dictionary? ==> multiset(order) == multiset(r.words.Keys)
  }

  function RuleDetections(lower: Lowering, r: Rule, text: string, order: seq<string>): seq<Detection> {
    match r
    case Signature(find, t, score) => Marked(Accepted(find(text), t), t, score)
    case Dictionary(_, _) => FlatMap(WordDetections(lower, r, text), order)
  }

  ghost predicate OrdersOf(rules: seq<Rule>, orders: seq<seq<string>>) {
    |orders| == |rules| && forall i :: 0 <= i < |rules| ==> OrderOf(rules[i], orders[i])
  }

  function AllDetections(lower: Lowering, rules: seq<Rule>, text: string, orders: seq<seq<string>>): seq<Detection>
    requires |orders| == |rules|
  {
    if rules == [] then []
    else
      var n := |rules| - 1;
      AllDetections(lower, rules[..n], text, orders[..n]) + RuleDetections(lower, rules[n], text, orders[n])
  }

  function Weight(): Detection -> nat { (d: Detection) => d.scoreImpact }

  function Impact(ds: seq<Detection>): nat { SumOf(Weight(), ds) }

  /** Every detection adds its own weight. */
  lemma ImpactGrows(ds: seq<Detection>, d: Detection)
    ensures Impact([]) == 0 && Impact(ds + [d]) == Impact(ds) + d.scoreImpact
  {
    SumOfLast(Weight(), ds, d);
  }

  function SeverityOf(score: nat): Severity {
    if score == 0 then Low else if score <= 10 then Medium else if score <= 30 then High else Critical
  }

  /** The scores of each severity. */
  lemma SeverityIff(score: nat)
    ensures SeverityOf(score) == Low <==> score == 0
    ensures SeverityOf(score) == Medium <==> 1 <= score <= 10
    ensures SeverityOf(score) == High <==> 11 <= score <= 30
    ensures SeverityOf(score) == Critical <==> score > 30
  {
  }

  /** What `analyze` may return: for some iteration order, all detections, and their total
      in 32-bit arithmetic. */
  ghost predicate IsAnalysis(lower: Lowering, rules: seq<Rule>, threshold: u32, text: string, r: AnalysisResult) {
    && (exists orders :: OrdersOf(rules, orders) && r.detections == AllDetections(lower, rules, text, orders))
    && r.totalScore == Impact(r.detections) % 0x1_0000_0000
    && r.isViolation == (r.totalScore >= threshold)
    && r.severity == SeverityOf(r.totalScore)
  }

  // What is detected.

  /** One detection for each text, in order, all of one type and weight. */
  lemma {:induction false} MarkedAt(texts: seq<string>, t: LeakType, score: u32)
    ensures |Marked(texts, t, score)| == |texts|
    ensures forall i :: 0 <= i < |texts| ==> Marked(texts, t, score)[i] == Detection(t, texts[i], score)
  {
    if texts != [] { MarkedAt(texts[1..], t, score); }
  }

  /** All matches count, for cards the valid ones, each as often as it was found. */
  lemma {:induction false} AcceptedCount(matches: seq<string>, t: LeakType, m: string)
    ensures multiset(Accepted(matches, t))[m]
            == if t.CreditCard? && !Luhn.Validate(m) then 0 else multiset(matches)[m]
  {
    if matches != [] {
      AcceptedCount(matches[1..], t, m);
      assert matches == [matches[0]] + matches[1..];
      assert multiset(matches) == multiset{matches[0]} + multiset(matches[1..]);
    }
  }

  /** A word's detections: one for each hit, with the rule's type and the word's weight. */
  lemma WordDetected(lower: Lowering, r: Rule, text: string, w: string)
    requires r.Dictionary? && w in r.words && w != "" && Outcome(lower, text, w).Some?
    ensures var hits, ds := Outcome(lower, text, w).value, WordDetections(lower, r, text)(w);
            |ds| == |hits| && forall i :: 0 <= i < |ds| ==> ds[i] == Detection(r.leakType, hits[i], r.words[w])
  {
    hide Outcome;
    MarkedAt(Outcome(lower, text, w).value, r.leakType, r.words[w]);
  }

  /** The rule accounts for the detection. */
  ghost predicate Finds(lower: Lowering, r: Rule, text: string, d: Detection) {
    match r
    case Signature(find, t, score) =>
      d == Detection(t, d.matchedText, score) && d.matchedText in find(text)
      && (t.CreditCard? ==> Luhn.Validate(d.matchedText))
    case Dictionary(words, t) =>
      exists w :: w in words && w != "" && Outcome(lower, text, w).Some?
                  && d.matchedText in Outcome(lower, text, w).value && d == Detection(t, d.matchedText, words[w])
  }

  lemma {:induction false} InFlatMap<T, D>(f: T -> seq<D>, s: seq<T>, d: D)
    ensures d in FlatMap(f, s) <==> exists x :: x in s && d in f(x)
  {
    if s != [] {
      InFlatMap(f, s[..|s| - 1], d);
      assert s == s[..|s| - 1] + [s[|s| - 1]];
    }
  }

  lemma InMarked(texts: seq<string>, t: LeakType, score: u32, d: Detection)
    ensures d in Marked(texts, t, score) <==> d.matchedText in texts && d == Detection(t, d.matchedText, score)
  {
    MarkedAt(texts, t, score);
  }

  lemma RuleFinds(lower: Lowering, r: Rule, text: string, order: seq<string>, d: Detection)
    requires OrderOf(r, order)
    ensures d in RuleDetections(lower, r, text, order) <==> Finds(lower, r, text, d)
  {
    hide Outcome, Luhn.Validate;
    match r
    case Signature(find, t, score) =>
      InMarked(Accepted(find(text), t), t, score, d);
      AcceptedCount(find(text), t, d.matchedText);
      assert d.matchedText in Accepted(find(text), t) <==> multiset(Accepted(find(text), t))[d.matchedText] > 0;
      assert d.matchedText in find(text) <==> multiset(find(text))[d.matchedText] > 0;
    case Dictionary(words, t) =>
      var f := WordDetections(lower, r, text);
      InFlatMap(f, order, d);
      forall w | w in words && w != "" && Outcome(lower, text, w).Some?
        ensures d in f(w)
                <==> d.matchedText in Outcome(lower, text, w).value && d == Detection(t, d.matchedText, words[w])
      {
        InMarked(Outcome(lower, text, w).value, t, words[w], d);
      }
      assert forall w :: w in order <==> w in multiset(order);
  }

  /** A detection is reported exactly when some rule accounts for it. */
  lemma {:induction false} DetectedIff(lower: Lowering, rules: seq<Rule>, text: string,
                                       orders: seq<seq<string>>, d: Detection)
    requires OrdersOf(rules, orders)
    ensures d in AllDetections(lower, rules, text, orders)
            <==> exists i :: 0 <= i < |rules| && Finds(lower, rules[i], text, d)
  {
    hide Finds, RuleDetections;
    if rules != [] {
      var n := |rules| - 1;
      DetectedIff(lower, rules[..n], text, orders[..n], d);
      RuleFinds(lower, rules[n], text, orders[n], d);
      if d in AllDetections(lower, rules[..n], text, orders[..n]) {
        var i :| 0 <= i < n && Finds(lower, rules[..n][i], text, d);
        assert Finds(lower, rules[i], text, d);
      }
      if i :| 0 <= i < |rules| && Finds(lower, rules[i], text, d) {
        assert i < n ==> rules[..n][i] == rules[i];
      }
    }
  }

  /** What an analysis says: exactly the detections some rule accounts for, their weights added
      up in 32 bits, a violation from the threshold on, and the severity of the score. */
  lemma AnalysisMeans(lower: Lowering, rules: seq<Rule>, threshold: u32, text: string, r: AnalysisResult)
    requires IsAnalysis(lower, rules, threshold, text, r)
    ensures forall d :: d in r.detections <==> exists i :: 0 <= i < |rules| && Finds(lower, rules[i], text, d)
    ensures r.totalScore == Impact(r.detections) % 0x1_0000_0000
    ensures r.isViolation <==> r.totalScore >= threshold
    ensures r.severity == Low <==> r.totalScore == 0
    ensures r.severity == Medium <==> 1 <= r.totalScore <= 10
    ensures r.severity == High <==> 11 <= r.totalScore <= 30
  {
    hide Finds, AllDetections, SumOf;
    var orders :| OrdersOf(rules, orders) && r.detections == AllDetections(lower, rules, text, orders);
    forall d
      ensures d in r.detections <==> exists i :: 0 <= i < |rules| && Finds(lower, rules[i], text, d)
    {
      DetectedIff(lower, rules, text, orders, d);
    }
  }

  // Iteration order does not matter.

  lemma {:induction false} DetectionsOrderFree(lower: Lowering, rules: seq<Rule>, text: string,
                                               o: seq<seq<string>>, o': seq<seq<string>>)
    requires OrdersOf(rules, o) && OrdersOf(rules, o')
    ensures multiset(AllDetections(lower, rules, text, o)) == multiset(AllDetections(lower, rules, text, o'))
  {
    if rules != [] {
      var n := |rules| - 1;
      DetectionsOrderFree(lower, rules[..n], text, o[..n], o'[..n]);
      if rules[n].Dictionary? { FlatMapOrderFree(WordDetections(lower, rules[n], text), o[n], o'[n]); }
    }
  }

  /** Any two analyses of one document agree on verdict, score and severity, and on their
      detections up to order. */
  lemma AnalysesAgree(lower: Lowering, rules: seq<Rule>, threshold: u32, text: string,
                      r: AnalysisResult, r': AnalysisResult)
    requires IsAnalysis(lower, rules, threshold, text, r) && IsAnalysis(lower, rules, threshold, text, r')
    ensures r.totalScore == r'.totalScore && r.isViolation == r'.isViolation && r.severity == r'.severity
    ensures multiset(r.detections) == multiset(r'.detections)
    ensures Impact(r.detections) < 0x1_0000_0000 ==> r.totalScore == Impact(r.detections) == Impact(r'.detections)
  {
    hide AllDetections, SumOf;
    var o :| OrdersOf(rules, o) && r.detections == AllDetections(lower, rules, text, o);
    var o' :| OrdersOf(rules, o') && r'.detections == AllDetections(lower, rules, text, o');
    DetectionsOrderFree(lower, rules, text, o, o');
    SumOfOrderFree(Weight(), r.detections, r'.detections);
  }

  // The engine.

  lemma {:induction false} MarkedNext(texts: seq<string>, i: nat, t: LeakType, score: u32)
    requires i < |texts|
    ensures Marked(texts[..i + 1], t, score) == Marked(texts[..i], t, score) + [Detection(t, texts[i], score)]
  {
    if i == 0 {
      assert texts[..1] == [texts[0]] && texts[..0] == [] && [texts[0]][1..] == [];
    } else {
      MarkedNext(texts[1..], i - 1, t, score);
      assert texts[..i + 1][1..] == texts[1..][..i] && texts[..i][1..] == texts[1..][..i - 1];
    }
  }

  lemma {:induction false} AcceptedNext(matches: seq<string>, i: nat, t: LeakType)
    requires i < |matches|
    ensures Accepted(matches[..i + 1], t) == Accepted(matches[..i], t)
              + if t.CreditCard? && !Luhn.Validate(matches[i]) then [] else [matches[i]]
  {
    if i == 0 {
      assert matches[..1] == [matches[0]] && matches[..0] == [] && [matches[0]][1..] == [];
    } else {
      AcceptedNext(matches[1..], i - 1, t);
      assert matches[..i + 1][1..] == matches[1..][..i] && matches[..i][1..] == matches[1..][..i - 1];
    }
  }

  lemma MarkedLast(texts: seq<string>, x: string, t: LeakType, score: u32)
    ensures Marked(texts + [x], t, score) == Marked(texts, t, score) + [Detection(t, x, score)]
  {
    MarkedNext(texts + [x], |texts|, t, score);
    assert (texts + [x])[..|texts| + 1] == texts + [x] && (texts + [x])[..|texts|] == texts;
  }

  function Add(score: u32, d: Detection): u32 { (score + d.scoreImpact) % 0x1_0000_0000 }

  /** The running total after pushing one more detection. */
  lemma AddTracks(ds: seq<Detection>, d: Detection)
    ensures Impact(ds + [d]) % 0x1_0000_0000 == Add(Impact(ds) % 0x1_0000_0000, d)
  {
    SumOfLast(Weight(), ds, d);
  }

  /** The engine's two accumulators. */
  datatype Tally = Tally(detections: seq<Detection>, score: u32)

  predicate Tallied(t: Tally) { t.score == Impact(t.detections) % 0x1_0000_0000 }

  method Push(t: Tally, d: Detection) returns (t': Tally)
    requires Tallied(t)
    ensures Tallied(t') && t'.detections == t.detections + [d]
  {
    AddTracks(t.detections, d);
    t' := Tally(t.detections + [d], Add(t.score, d));
  }

  method RunSignature(r: Rule, text: string, t: Tally) returns (t': Tally)
    requires r.Signature? && Tallied(t)
    ensures Tallied(t')
    ensures t'.detections == t.detections + Marked(Accepted(r.find(text), r.leakType), r.leakType, r.score)
  {
    var matches := r.find(text);
    t' := t;
    for i := 0 to |matches|
      invariant Tallied(t')
      invariant t'.detections == t.detections + Marked(Accepted(matches[..i], r.leakType), r.leakType, r.score)
    {
      ghost var sofar := Accepted(matches[..i], r.leakType);
      AcceptedNext(matches, i, r.leakType);
      if r.leakType == CreditCard && !Luhn.Validate(matches[i]) {
        assert sofar + [] == sofar;
        continue;
      }
      MarkedLast(sofar, matches[i], r.leakType, r.score);
      t' := Push(t', Detection(r.leakType, matches[i], r.score));
    }
    assert matches[..|matches|] == matches;
  }

  method RunWord(lower: Lowering, r: Rule, w: string, text: string, t: Tally) returns (t': Option<Tally>)
    requires RuleOk(r) && r.Dictionary? && w in r.words && Tallied(t)
    ensures t'.Some? <==> Outcome(lower, text, w).Some?
    ensures t'.Some? ==>
              Tallied(t'.value) && t'.value.detections == t.detections + WordDetections(lower, r, text)(w)
  {
    hide Outcome;
    var hits := Scan(lower, text, w);
    if hits.None? { return None; }
    var tally := t;
    for i := 0 to |hits.value|
      invariant Tallied(tally)
      invariant tally.detections == t.detections + Marked(hits.value[..i], r.leakType, r.words[w])
    {
      MarkedNext(hits.value, i, r.leakType, r.words[w]);
      tally := Push(tally, Detection(r.leakType, hits.value[i], r.words[w]));
    }
    assert hits.value[..|hits.value|] == hits.value;
    t' := Some(tally);
  }

  /** The words are visited in whatever order the map yields them. */
  method RunDictionary(lower: Lowering, r: Rule, text: string, t: Tally)
    returns (t': Option<Tally>, ghost order: seq<string>)
    requires RuleOk(r) && r.Dictionary? && Tallied(t)
    ensures t'.Some? <==> Scans(lower, r, text)
    ensures t'.Some? ==> Tallied(t'.value) && OrderOf(r, order)
    ensures t'.Some? ==> t'.value.detections == t.detections + RuleDetections(lower, r, text, order)
  {
    hide FlatMap, WordDetections, SumOf, Outcome;
    var tally := t;
    order := [];
    ghost var f := WordDetections(lower, r, text);
    FlatMapEmpty(f);
    var todo := r.words.Keys;
    while todo != {}
      invariant todo <= r.words.Keys && multiset(order) + multiset(todo) == multiset(r.words.Keys)
      invariant forall w :: w in r.words.Keys - todo && w != "" ==> Outcome(lower, text, w).Some?
      invariant Tallied(tally) && tally.detections == t.detections + FlatMap(f, order)
      decreases todo
    {
      var w :| w in todo;
      var next := RunWord(lower, r, w, text, tally);
      if next.None? { return None, order; }
      tally := next.value;
      FlatMapLast(f, order, w);
      assert t.detections + FlatMap(f, order) + f(w) == t.detections + (FlatMap(f, order) + f(w));
      assert multiset(todo) == multiset(todo - {w}) + multiset{w};
      order := order + [w];
      todo := todo - {w};
    }
    assert multiset(todo) == multiset{};
    t' := Some(tally);
  }

  lemma NoDetections(lower: Lowering, text: string)
    ensures AllDetections(lower, [], text, []) == []
  {
  }

  lemma DetectionsNext(lower: Lowering, rules: seq<Rule>, text: string, orders: seq<seq<string>>,
                       r: Rule, order: seq<string>)
    requires |orders| == |rules|
    ensures AllDetections(lower, rules + [r], text, orders + [order])
            == AllDetections(lower, rules, text, orders) + RuleDetections(lower, r, text, order)
  {
    assert (rules + [r])[..|rules|] == rules && (orders + [order])[..|rules|] == orders;
  }

  lemma SignatureDetections(lower: Lowering, r: Rule, text: string, order: seq<string>)
    requires r.Signature?
    ensures RuleDetections(lower, r, text, order) == Marked(Accepted(r.find(text), r.leakType), r.leakType, r.score)
  {
  }

  class Engine {
    var rules: seq<Rule>
    const threshold: u32
    const lower: Lowering

    constructor (lower: Lowering, threshold: u32)
      ensures this.lower == lower && this.threshold == threshold && rules == []
    {
      this.lower, this.threshold := lower, threshold;
      rules := [];
    }

    /** A new rule leaves what the others detect as it is and adds its own detections behind. */
    method AddRule(r: Rule)
      modifies this
      ensures rules == old(rules) + [r] && (RulesOk(rules) <==> old(RulesOk(rules)) && RuleOk(r))
      ensures forall text, orders: seq<seq<string>>, order :: |orders| == |old(rules)| ==>
                AllDetections(lower, rules, text, orders + [order])
                == AllDetections(lower, old(rules), text, orders) + RuleDetections(lower, r, text, order)
    {
      forall text, orders: seq<seq<string>>, order | |orders| == |rules|
        ensures AllDetections(lower, rules + [r], text, orders + [order])
                == AllDetections(lower, rules, text, orders) + RuleDetections(lower, r, text, order)
      {
        DetectionsNext(lower, rules, text, orders, r, order);
      }
      assert RulesOk(rules + [r]) ==> RuleOk((rules + [r])[|rules|]);
      assert forall i :: 0 <= i < |rules| ==> (rules + [r])[i] == rules[i];
      rules := rules + [r];
    }

    method Analyze(text: string) returns (r: Option<AnalysisResult>)
      requires RulesOk(rules)
      ensures r.Some? <==> AllScan(lower, rules, text)
      ensures r.Some? ==> IsAnalysis(lower, rules, threshold, text, r.value)
    {
      hide AllDetections, RuleDetections;
      var t := Tally([], 0);
      NoDetections(lower, text);
      ghost var orders: seq<seq<string>> := [];
      for i := 0 to |rules|
        invariant OrdersOf(rules[..i], orders) && AllScan(lower, rules[..i], text) && Tallied(t)
        invariant t.detections == AllDetections(lower, rules[..i], text, orders)
      {
        ghost var order := [];
        if rules[i].Signature? {
          SignatureDetections(lower, rules[i], text, order);
          t := RunSignature(rules[i], text, t);
        } else {
          var next;
          next, order := RunDictionary(lower, rules[i], text, t);
          if next.None? { return None; }
          t := next.value;
        }
        assert rules[..i + 1] == rules[..i] + [rules[i]];
        DetectionsNext(lower, rules[..i], text, orders, rules[i], order);
        orders := orders + [order];
      }
      assert rules[..|rules|] == rules;
      r := Some(AnalysisResult(t.score >= threshold, t.score, SeverityOf(t.score), t.detections));
    }

    /** Threads finish in any order; they are joined in the order of the documents. A panic in
        one of them is passed on. */
    method AnalyzeParallel(documents: seq<string>) returns (results: Option<seq<AnalysisResult>>)
      requires RulesOk(rules)
      ensures results.Some? <==> forall i :: 0 <= i < |documents| ==> AllScan(lower, rules, documents[i])
      ensures results.Some? ==> |results.value| == |documents|
      ensures results.Some? ==>
                forall i :: 0 <= i < |documents| ==>
                  IsAnalysis(lower, rules, threshold, documents[i], results.value[i])
    {
      hide IsAnalysis, AllScan;
      var finished: map<nat, Option<AnalysisResult>> := map[];
      var running := Range(0, |documents|);
      while running != {}
        invariant forall i :: i in running ==> 0 <= i < |documents|
        invariant forall i :: 0 <= i < |documents| && i !in running ==>
                    i in finished && (finished[i].Some? <==> AllScan(lower, rules, documents[i]))
        invariant forall i :: 0 <= i < |documents| && i !in running && finished[i].Some? ==>
                    IsAnalysis(lower, rules, threshold, documents[i], finished[i].value)
        decreases running
      {
        var i :| i in running;
        var r := Analyze(documents[i]);
        finished := finished[i := r];
        running := running - {i};
      }
      var joined := [];
      for i := 0 to |documents|
        invariant |joined| == i
        invariant forall j :: 0 <= j < i ==>
                    && AllScan(lower, rules, documents[j])
                    && IsAnalysis(lower, rules, threshold, documents[j], joined[j])
      {
        if finished[i].None? { return None; }
        joined := joined + [finished[i].value];
      }
      results := Some(joined);
    }
  }

  /** Every document whose offsets lowering keeps is analysed without a panic. */
  lemma AlignedScans(lower: Lowering, rules: seq<Rule>, text: string)
    requires Lawful(lower) && Utf8(text) && Aligned(text, lower(text))
    requires forall i, w :: 0 <= i < |rules| && rules[i].Dictionary? && w in rules[i].words ==>
                              Utf8(w) && Fits(lower, w)
    ensures AllScan(lower, rules, text)
  {
    hide Outcome, Utf8, Aligned, Fits;
    forall i, w | 0 <= i < |rules| && rules[i].Dictionary? && w in rules[i].words && w != ""
      ensures Outcome(lower, text, w).Some?
    {
      AlignedNeverPanics(lower, text, w);
    }
  }
}
