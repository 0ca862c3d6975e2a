/** Hypothesis admission: the quality gate, the duplicate check and the loop that grows the accepted set. */
module Admission {
  import opened Similarity

  datatype Status = Draft | Active | Rejected | Promoted

  datatype Complaint =
    | StatementTooShort | NotTestable | IntuitionMissing | MissingData
    | AssetClassUnspecified | ConfidenceTooLow | StatementTooVague | CircularReasoning

  /** Why a hypothesis was rejected. */
  datatype Reason = NoReason | FailedChecks(complaints: seq<Complaint>) | DuplicateOf(id: string)

  datatype Record = Record(
    id: string, statement: string, intuition: string, datasets: seq<string>, assetClasses: seq<string>,
    confidence: real, status: Status, similarTo: seq<string>, reason: Reason)

  /** Case folding, trimming and splitting into content words belong to the host language. */
  datatype Text = Text(lower: string -> string, strip: string -> string, tokens: string -> Tokens)

  /** An accepted entry: identifier and statement. */
  type Entry = (string, string)

  // ---- the quality gate ----

  predicate Contains(s: string, part: string) {
    part <= s || (|s| > 0 && Contains(s[1..], part))
  }

  predicate OccursAt(s: string, part: string, i: int) {
    0 <= i <= |s| - |part| && s[i..i + |part|] == part
  }

  /** Containing a part is having it at some position, as one piece. */
  lemma {:induction false} ContainsIff(s: string, part: string)
    ensures Contains(s, part) <==> exists i :: OccursAt(s, part, i)
  {
    if part <= s {
      assert OccursAt(s, part, 0);
    } else if |s| > 0 {
      ContainsIff(s[1..], part);
      forall i ensures OccursAt(s[1..], part, i) ==> OccursAt(s, part, i + 1) {}
      forall i ensures OccursAt(s, part, i) ==> OccursAt(s[1..], part, i - 1) {}
    }
  }

  predicate TooShort(text: Text, h: Record) {
    |text.strip(h.statement)| < 20
  }

  predicate NoConditional(text: Text, h: Record) {
    !Contains(text.lower(h.statement), "if ") && !Contains(text.lower(h.statement), "when ")
  }

  predicate TooVague(text: Text, h: Record) {
    |text.tokens(h.statement)| < 3
  }

  predicate Circular(text: Text, h: Record) {
    |h.statement| > 10 && Contains(text.lower(h.intuition), text.strip(text.lower(h.statement)))
  }

  function Flagged(reasons: seq<Complaint>, failed: bool, reason: Complaint): seq<Complaint> {
    if failed then reasons + [reason] else reasons
  }

  /** The complaints of the checks on form: length, testability, intuition and data. */
  function FormComplaints(text: Text, h: Record): seq<Complaint> {
    var r1 := Flagged([], TooShort(text, h), StatementTooShort);
    var r2 := Flagged(r1, NoConditional(text, h), NotTestable);
    var r3 := Flagged(r2, |text.strip(h.intuition)| < 10, IntuitionMissing);
    Flagged(r3, |h.datasets| == 0, MissingData)
  }

  /** The complaint of every failed check, in the order of the checks. */
  function Complaints(text: Text, h: Record): seq<Complaint> {
    var r5 := Flagged(FormComplaints(text, h), |h.assetClasses| == 0, AssetClassUnspecified);
    var r6 := Flagged(r5, h.confidence < 0.1, ConfidenceTooLow);
    var r7 := Flagged(r6, TooVague(text, h), StatementTooVague);
    Flagged(r7, Circular(text, h), CircularReasoning)
  }

  predicate Passes(text: Text, h: Record) {
    && !TooShort(text, h) && !NoConditional(text, h) && |text.strip(h.intuition)| >= 10
    && |h.datasets| > 0 && |h.assetClasses| > 0 && h.confidence >= 0.1
    && !TooVague(text, h) && !Circular(text, h)
  }

  lemma PassesIff(text: Text, h: Record)
    ensures Complaints(text, h) == [] <==> Passes(text, h)
  {
    hide TooShort, NoConditional, TooVague, Circular;
  }

  function When(failed: bool, reason: Complaint): seq<Complaint> {
    if failed then [reason] else []
  }

  lemma FlaggedIs(reasons: seq<Complaint>, failed: bool, reason: Complaint)
    ensures Flagged(reasons, failed, reason) == reasons + When(failed, reason)
    ensures [] + When(failed, reason) == When(failed, reason)
  {
  }

  lemma FormComplaintsAre(text: Text, h: Record)
    ensures FormComplaints(text, h)
         == When(|text.strip(h.statement)| < 20, StatementTooShort)
            + When(!Contains(text.lower(h.statement), "if ") && !Contains(text.lower(h.statement), "when "), NotTestable)
            + When(|text.strip(h.intuition)| < 10, IntuitionMissing) + When(h.datasets == [], MissingData)
  {
    hide Contains, Flagged, When;
    var r1 := Flagged([], TooShort(text, h), StatementTooShort);
    FlaggedIs([], TooShort(text, h), StatementTooShort);
    var r2 := Flagged(r1, NoConditional(text, h), NotTestable);
    FlaggedIs(r1, NoConditional(text, h), NotTestable);
    var r3 := Flagged(r2, |text.strip(h.intuition)| < 10, IntuitionMissing);
    FlaggedIs(r2, |text.strip(h.intuition)| < 10, IntuitionMissing);
    FlaggedIs(r3, |h.datasets| == 0, MissingData);
  }

  /** Which complaint stands for which failed check, and in what order. */
  lemma ComplaintsAre(text: Text, h: Record)
    ensures Complaints(text, h)
         == When(|text.strip(h.statement)| < 20, StatementTooShort)
            + When(!Contains(text.lower(h.statement), "if ") && !Contains(text.lower(h.statement), "when "), NotTestable)
            + When(|text.strip(h.intuition)| < 10, IntuitionMissing) + When(h.datasets == [], MissingData)
            + When(h.assetClasses == [], AssetClassUnspecified) + When(h.confidence < 0.1, ConfidenceTooLow)
            + When(|text.tokens(h.statement)| < 3, StatementTooVague)
            + When(|h.statement| > 10 && Contains(text.lower(h.intuition), text.strip(text.lower(h.statement))),
                   CircularReasoning)
  {
    hide Contains, Flagged, When, FormComplaints;
    FormComplaintsAre(text, h);
    var r4 := FormComplaints(text, h);
    var r5 := Flagged(r4, |h.assetClasses| == 0, AssetClassUnspecified);
    FlaggedIs(r4, |h.assetClasses| == 0, AssetClassUnspecified);
    var r6 := Flagged(r5, h.confidence < 0.1, ConfidenceTooLow);
    FlaggedIs(r5, h.confidence < 0.1, ConfidenceTooLow);
    var r7 := Flagged(r6, TooVague(text, h), StatementTooVague);
    FlaggedIs(r6, TooVague(text, h), StatementTooVague);
    FlaggedIs(r7, Circular(text, h), CircularReasoning);
  }

  lemma ChecksAre(text: Text, h: Record)
    ensures TooShort(text, h) <==> |text.strip(h.statement)| < 20
    ensures var lowered := text.lower(h.statement);
            && (NoConditional(text, h) <==> !Contains(lowered, "if ") && !Contains(lowered, "when "))
            && (Circular(text, h) <==>
                  |h.statement| > 10 && Contains(text.lower(h.intuition), text.strip(lowered)))
    ensures TooVague(text, h) <==> |text.tokens(h.statement)| < 3
  {
  }

  /** The first four checks. */
  method CheckForm(text: Text, h: Record) returns (reasons: seq<Complaint>)
    ensures reasons == FormComplaints(text, h)
  {
    hide Contains, TooShort, NoConditional;
    ChecksAre(text, h);
    reasons := [];
    if |text.strip(h.statement)| < 20 {
      reasons := reasons + [StatementTooShort];
    }
    var lowered := text.lower(h.statement);
    if !Contains(lowered, "if ") && !Contains(lowered, "when ") {
      reasons := reasons + [NotTestable];
    }
    if |text.strip(h.intuition)| < 10 {
      reasons := reasons + [IntuitionMissing];
    }
    if |h.datasets| == 0 {
      reasons := reasons + [MissingData];
    }
  }

  /** All checks run and every failed one is named; a hypothesis passes when none failed. */
  method CheckQuality(text: Text, h: Record) returns (passed: bool, reasons: seq<Complaint>)
    ensures reasons == Complaints(text, h) && (passed <==> Passes(text, h))
  {
    hide Contains, Passes, FormComplaints, TooVague, Circular;
    ChecksAre(text, h);
    reasons := CheckForm(text, h);
    if |h.assetClasses| == 0 {
      reasons := reasons + [AssetClassUnspecified];
    }
    if h.confidence < 0.1 {
      reasons := reasons + [ConfidenceTooLow];
    }
    if |text.tokens(h.statement)| < 3 {
      reasons := reasons + [StatementTooVague];
    }
    if |h.statement| > 10 && Contains(text.lower(h.intuition), text.strip(text.lower(h.statement))) {
      reasons := reasons + [CircularReasoning];
    }
    PassesIff(text, h);
    passed := |reasons| == 0;
  }

  // ---- the duplicate check ----

  datatype Tier = Unique | Variation | NearDuplicate | Duplicate

  datatype Verdict = Verdict(tier: Tier, similarIds: seq<string>, maxSimilarity: real)

  type Match = (real, string)

  /** Lexicographic order on strings. */
  predicate Less(a: string, b: string) {
    |b| > 0 && (|a| == 0 || a[0] < b[0] || (a[0] == b[0] && Less(a[1..], b[1..])))
  }

  lemma {:induction false} LessTotal(a: string, b: string)
    ensures a == b || Less(a, b) || Less(b, a)
  {
    if |a| > 0 && |b| > 0 && a[0] == b[0] {
      LessTotal(a[1..], b[1..]);
      assert a == [a[0]] + a[1..] && b == [b[0]] + b[1..];
    }
  }

  /** It is decided where the strings first differ, or by their lengths. */
  lemma {:induction false} LessIff(a: string, b: string)
    ensures Less(a, b) <==> exists k :: && 0 <= k <= |a| && k < |b| && a[..k] == b[..k]
                                       && (k < |a| ==> a[k] < b[k])
  {
    if |a| > 0 && |b| > 0 && a[0] == b[0] {
      LessIff(a[1..], b[1..]);
      forall k | 0 < k <= |a| && k < |b|
        ensures a[..k] == b[..k] <==> a[1..][..k - 1] == b[1..][..k - 1]
      {
        assert a[..k] == [a[0]] + a[1..][..k - 1] && b[..k] == [b[0]] + b[1..][..k - 1];
      }
      if Less(a, b) {
        var j :| 0 <= j <= |a[1..]| && j < |b[1..]| && a[1..][..j] == b[1..][..j]
                 && (j < |a[1..]| ==> a[1..][j] < b[1..][j]);
        assert a[..j + 1] == b[..j + 1];
      }
    } else if |b| > 0 {
      assert a[..0] == b[..0];
    }
  }

  predicate Above(x: Match, y: Match) {
    x.0 > y.0 || (x.0 == y.0 && Less(y.1, x.1))
  }

  function InsertDown(xs: seq<Match>, x: Match): (r: seq<Match>)
    ensures |r| == |xs| + 1
  {
    if |xs| == 0 || !Above(xs[0], x) then [x] + xs else [xs[0]] + InsertDown(xs[1..], x)
  }

  /** Sorted by similarity, then by identifier, both from the top. */
  function SortDown(xs: seq<Match>): (r: seq<Match>)
    ensures |r| == |xs|
  {
    if |xs| == 0 then [] else InsertDown(SortDown(xs[..|xs| - 1]), xs[|xs| - 1])
  }

  /** The entries, other than the hypothesis itself, that are at least variations of it. */
  function Matches(text: Text, h: Record, existing: seq<Entry>): seq<Match> {
    if |existing| == 0 then []
    else
      var front, last := Matches(text, h, existing[..|existing| - 1]), existing[|existing| - 1];
      var similarity := Jaccard(text.tokens(h.statement), text.tokens(last.1));
      if last.0 == h.id || similarity < VARIATION then front else front + [(similarity, last.0)]
  }

  function Ids(xs: seq<Match>): seq<string> {
    seq(|xs|, i requires 0 <= i < |xs| => xs[i].1)
  }

  function Judged(text: Text, h: Record, existing: seq<Entry>): Verdict {
    var sorted := SortDown(Matches(text, h, existing));
    if |sorted| == 0 then Verdict(Unique, [], 0.0)
    else
      var top := sorted[0].0;
      Verdict(if top >= EXACT then Duplicate else if top >= NEAR_DUPLICATE then NearDuplicate else Variation,
              Ids(sorted), top)
  }

  method CheckDuplicates(text: Text, h: Record, existing: seq<Entry>) returns (v: Verdict)
    ensures v == Judged(text, h, existing)
  {
    var near: seq<Match> := [];
    for i := 0 to |existing|
      invariant near == Matches(text, h, existing[..i])
    {
      assert existing[..i + 1][..i] == existing[..i];
      if existing[i].0 == h.id {
        continue;
      }
      var similarity := Jaccard(text.tokens(h.statement), text.tokens(existing[i].1));
      if similarity >= VARIATION {
        near := near + [(similarity, existing[i].0)];
      }
    }
    assert existing[..|existing|] == existing;
    if |near| == 0 {
      return Verdict(Unique, [], 0.0);
    }
    near := SortDown(near);
    var top := near[0].0;
    if top >= EXACT {
      return Verdict(Duplicate, Ids(near), top);
    }
    if top >= NEAR_DUPLICATE {
      return Verdict(NearDuplicate, Ids(near), top);
    }
    v := Verdict(Variation, Ids(near), top);
  }

  predicate Descending(xs: seq<Match>) {
    forall i :: 0 <= i < |xs| - 1 ==> xs[i] == xs[i + 1] || Above(xs[i], xs[i + 1])
  }

  lemma Prepended(x: Match, xs: seq<Match>)
    requires Descending(xs) && (|xs| > 0 ==> x == xs[0] || Above(x, xs[0]))
    ensures Descending([x] + xs) && multiset([x] + xs) == multiset(xs) + multiset{x}
  {
    hide Above;
    var ys := [x] + xs;
    forall i | 0 <= i < |ys| - 1 ensures ys[i] == ys[i + 1] || Above(ys[i], ys[i + 1]) {
      if i > 0 { assert ys[i] == xs[i - 1] && ys[i + 1] == xs[i - 1 + 1]; }
    }
  }

  lemma {:induction false} InsertDownSorts(xs: seq<Match>, x: Match)
    requires Descending(xs)
    ensures Descending(InsertDown(xs, x))
    ensures multiset(InsertDown(xs, x)) == multiset(xs) + multiset{x}
    ensures InsertDown(xs, x)[0] == x || (|xs| > 0 && InsertDown(xs, x)[0] == xs[0] && Above(xs[0], x))
  {
    hide Above, Descending;
    if |xs| == 0 || !Above(xs[0], x) {
      if |xs| > 0 { AboveTotal(xs[0], x); }
      Prepended(x, xs);
    } else {
      RestDescends(xs);
      InsertDownSorts(xs[1..], x);
      Prepended(xs[0], InsertDown(xs[1..], x));
      assert xs == [xs[0]] + xs[1..];
    }
  }

  lemma RestDescends(xs: seq<Match>)
    requires |xs| > 0 && Descending(xs)
    ensures Descending(xs[1..]) && (|xs| > 1 ==> xs[0] == xs[1] || Above(xs[0], xs[1]))
  {
    hide Above;
    forall i | 0 <= i < |xs[1..]| - 1 ensures xs[1..][i] == xs[1..][i + 1] || Above(xs[1..][i], xs[1..][i + 1]) {
      assert xs[i + 1] == xs[i + 1 + 1] || Above(xs[i + 1], xs[i + 1 + 1]);
    }
    assert |xs| > 1 ==> xs[0] == xs[0 + 1] || Above(xs[0], xs[0 + 1]);
  }

  lemma AboveTotal(x: Match, y: Match)
    ensures Above(x, y) || Above(y, x) || x == y
  {
    LessTotal(x.1, y.1);
  }

  lemma {:induction false} SortDownSorts(xs: seq<Match>)
    ensures Descending(SortDown(xs)) && multiset(SortDown(xs)) == multiset(xs)
  {
    hide Descending, InsertDown;
    if |xs| > 0 {
      var front, last := xs[..|xs| - 1], xs[|xs| - 1];
      SortDownSorts(front);
      InsertDownSorts(SortDown(front), last);
      assert xs == front + [last];
    } else {
      NothingDescends();
    }
  }

  lemma NothingDescends()
    ensures Descending([])
  {
  }

  lemma {:induction false} FirstIsTop(xs: seq<Match>, i: nat)
    requires Descending(xs) && i < |xs|
    ensures xs[0].0 >= xs[i].0
  {
    if i > 0 {
      FirstIsTop(xs, i - 1);
      assert xs[i - 1] == xs[i - 1 + 1] || Above(xs[i - 1], xs[i - 1 + 1]);
    }
  }

  /** An entry under another identifier whose similarity reaches the threshold. */
  predicate Similar(text: Text, h: Record, e: Entry, threshold: real) {
    e.0 != h.id && Jaccard(text.tokens(h.statement), text.tokens(e.1)) >= threshold
  }

  /** The match that stands for an entry. */
  predicate Accounts(text: Text, h: Record, e: Entry, m: Match) {
    Similar(text, h, e, VARIATION) && m == (Jaccard(text.tokens(h.statement), text.tokens(e.1)), e.0)
  }

  lemma {:induction false} MatchesAre(text: Text, h: Record, existing: seq<Entry>)
    ensures forall m :: m in Matches(text, h, existing) <==> exists e :: e in existing && Accounts(text, h, e, m)
  {
    hide Jaccard;
    if |existing| > 0 {
      var front, last := existing[..|existing| - 1], existing[|existing| - 1];
      assert existing == front + [last];
      MatchesAre(text, h, front);
      forall m
        ensures m in Matches(text, h, existing) <==> exists e :: e in existing && Accounts(text, h, e, m)
      {
        if m in Matches(text, h, front) {
          var e :| e in front && Accounts(text, h, e, m);
          assert e in existing;
        } else if m in Matches(text, h, existing) {
          assert last in existing && Accounts(text, h, last, m);
        }
      }
    }
  }

  /** The sorted matches are exactly the similar entries, the most similar first. */
  lemma SortedMatches(text: Text, h: Record, existing: seq<Entry>)
    ensures var sorted := SortDown(Matches(text, h, existing));
            && Descending(sorted)
            && (forall m :: m in sorted <==> exists e :: e in existing && Accounts(text, h, e, m))
  {
    hide Jaccard, Accounts, SortDown, Descending, Matches;
    var ms := Matches(text, h, existing);
    var sorted := SortDown(ms);
    SortDownSorts(ms);
    MatchesAre(text, h, existing);
    forall m ensures m in sorted <==> m in ms {
      assert m in sorted <==> m in multiset(sorted);
      assert m in ms <==> m in multiset(ms);
    }
  }

  /** The verdict: how similar the most similar other entry is decides the tier; the listed identifiers
      are those of the similar entries, a most similar one first. */
  lemma JudgedSound(text: Text, h: Record, existing: seq<Entry>)
    ensures var v := Judged(text, h, existing);
            && (v.tier == Unique <==> forall e :: e in existing ==> !Similar(text, h, e, VARIATION))
            && (v.tier == Duplicate <==> exists e :: e in existing && Similar(text, h, e, EXACT))
            && (v.tier == Duplicate || v.tier == NearDuplicate <==>
                  exists e :: e in existing && Similar(text, h, e, NEAR_DUPLICATE))
            && (forall id :: id in v.similarIds <==>
                  exists e :: e in existing && e.0 == id && Similar(text, h, e, VARIATION))
            && (v.tier != Unique ==>
                  && |v.similarIds| > 0
                  && exists e :: e in existing && e.0 == v.similarIds[0] && Similar(text, h, e, v.maxSimilarity))
  {
    hide Jaccard, SortDown, Matches, Descending;
    var sorted := SortDown(Matches(text, h, existing));
    SortedMatches(text, h, existing);
    forall e | e in existing && Similar(text, h, e, VARIATION)
      ensures |sorted| > 0 && sorted[0].0 >= Jaccard(text.tokens(h.statement), text.tokens(e.1))
      ensures e.0 in Ids(sorted)
    {
      var m := (Jaccard(text.tokens(h.statement), text.tokens(e.1)), e.0);
      assert Accounts(text, h, e, m);
      assert m in sorted;
      var i :| 0 <= i < |sorted| && sorted[i] == m;
      FirstIsTop(sorted, i);
      assert Ids(sorted)[i] == e.0;
    }
    if |sorted| > 0 {
      assert sorted[0] in sorted;
      var e :| e in existing && Accounts(text, h, e, sorted[0]);
      assert Similar(text, h, e, sorted[0].0);
      assert Ids(sorted)[0] == e.0;
    }
    forall id | id in Ids(sorted)
      ensures exists e :: e in existing && e.0 == id && Similar(text, h, e, VARIATION)
    {
      var ids := Ids(sorted);
      var i :| 0 <= i < |ids| && ids[i] == id;
      assert sorted[i] in sorted;
      var e :| e in existing && Accounts(text, h, e, sorted[i]);
    }
  }

  /** An entry under another identifier that shares so many tenths of its tokens with the hypothesis. */
  predicate Near(text: Text, h: Record, e: Entry, tenths: nat) {
    e.0 != h.id && Shares(text.tokens(h.statement), text.tokens(e.1), tenths)
  }

  lemma NearIff(text: Text, h: Record, e: Entry)
    ensures Similar(text, h, e, VARIATION) <==> Near(text, h, e, 4)
    ensures Similar(text, h, e, NEAR_DUPLICATE) <==> Near(text, h, e, 7)
    ensures Similar(text, h, e, EXACT) <==> Near(text, h, e, 10)
  {
    JaccardCounts(text.tokens(h.statement), text.tokens(e.1), 4);
    JaccardCounts(text.tokens(h.statement), text.tokens(e.1), 7);
    JaccardCounts(text.tokens(h.statement), text.tokens(e.1), 10);
  }

  /** The tiers in tokens: a hypothesis is unique while no other entry shares four tenths with it, a near duplicate
      from seven tenths on, and a duplicate when all are shared. */
  lemma TiersAre(text: Text, h: Record, existing: seq<Entry>)
    ensures var tier := Judged(text, h, existing).tier;
            && (tier == Unique <==> forall e :: e in existing ==> !Near(text, h, e, 4))
            && (tier == Duplicate || tier == NearDuplicate <==> exists e :: e in existing && Near(text, h, e, 7))
            && (tier == Duplicate <==> exists e :: e in existing && Near(text, h, e, 10))
  {
    hide Judged, Similar, Near;
    JudgedSound(text, h, existing);
    forall e ensures && (Similar(text, h, e, VARIATION) <==> Near(text, h, e, 4))
                     && (Similar(text, h, e, NEAR_DUPLICATE) <==> Near(text, h, e, 7))
                     && (Similar(text, h, e, EXACT) <==> Near(text, h, e, 10))
    {
      NearIff(text, h, e);
    }
  }

  /** The similarity reported is the largest to any other entry: none above it, one that has it. */
  lemma MaxSimilarityIs(text: Text, h: Record, existing: seq<Entry>)
    ensures var v, words := Judged(text, h, existing), text.tokens(h.statement);
            && (v.tier == Unique ==> v.maxSimilarity == 0.0 && v.similarIds == [])
            && (v.tier != Unique ==>
                  && (forall e :: e in existing && e.0 != h.id ==> Jaccard(words, text.tokens(e.1)) <= v.maxSimilarity)
                  && (exists e :: e in existing && e.0 != h.id && Jaccard(words, text.tokens(e.1)) == v.maxSimilarity))
  {
    hide Jaccard, SortDown, Matches, Descending;
    var sorted := SortDown(Matches(text, h, existing));
    SortedMatches(text, h, existing);
    if |sorted| > 0 {
      assert sorted[0] in sorted;
      var top :| top in existing && Accounts(text, h, top, sorted[0]);
      forall e | e in existing && e.0 != h.id
        ensures Jaccard(text.tokens(h.statement), text.tokens(e.1)) <= sorted[0].0
      {
        if Similar(text, h, e, VARIATION) {
          var m := (Jaccard(text.tokens(h.statement), text.tokens(e.1)), e.0);
          assert Accounts(text, h, e, m);
          assert m in sorted;
          var k :| 0 <= k < |sorted| && sorted[k] == m;
          FirstIsTop(sorted, k);
        }
      }
    }
  }

  /** The identifiers of the similar entries, one for each. */
  function SimilarTo(text: Text, h: Record, existing: seq<Entry>): seq<string> {
    if |existing| == 0 then []
    else
      var last := existing[|existing| - 1];
      SimilarTo(text, h, existing[..|existing| - 1]) + if Near(text, h, last, 4) then [last.0] else []
  }

  lemma {:induction false} MatchIds(text: Text, h: Record, existing: seq<Entry>)
    ensures Ids(Matches(text, h, existing)) == SimilarTo(text, h, existing)
  {
    hide Jaccard;
    if |existing| > 0 {
      MatchIds(text, h, existing[..|existing| - 1]);
      NearIff(text, h, existing[|existing| - 1]);
    }
  }

  lemma PrependedIds(x: Match, xs: seq<Match>)
    ensures multiset(Ids([x] + xs)) == multiset(Ids(xs)) + multiset{x.1}
  {
    assert Ids([x] + xs) == [x.1] + Ids(xs);
  }

  lemma {:induction false} InsertedIds(xs: seq<Match>, x: Match)
    ensures multiset(Ids(InsertDown(xs, x))) == multiset(Ids(xs)) + multiset{x.1}
  {
    hide Above, Ids;
    if |xs| == 0 || !Above(xs[0], x) {
      PrependedIds(x, xs);
    } else {
      InsertedIds(xs[1..], x);
      PrependedIds(xs[0], InsertDown(xs[1..], x));
      PrependedIds(xs[0], xs[1..]);
      assert xs == [xs[0]] + xs[1..];
    }
  }

  lemma {:induction false} SortedIds(xs: seq<Match>)
    ensures multiset(Ids(SortDown(xs))) == multiset(Ids(xs))
  {
    hide InsertDown, Ids;
    if |xs| > 0 {
      var front, last := xs[..|xs| - 1], xs[|xs| - 1];
      SortedIds(front);
      InsertedIds(SortDown(front), last);
      AppendedIds(xs, front, last);
    }
  }

  lemma AppendedIds(xs: seq<Match>, front: seq<Match>, last: Match)
    requires |xs| > 0 && front == xs[..|xs| - 1] && last == xs[|xs| - 1]
    ensures multiset(Ids(xs)) == multiset(Ids(front)) + multiset{last.1}
  {
    assert Ids(xs) == Ids(front) + [last.1];
  }

  /** The list names every similar entry as often as there is one. */
  lemma EachListed(text: Text, h: Record, existing: seq<Entry>)
    ensures multiset(Judged(text, h, existing).similarIds) == multiset(SimilarTo(text, h, existing))
  {
    hide SortDown, Matches;
    SortedIds(Matches(text, h, existing));
    MatchIds(text, h, existing);
  }

  lemma {:induction false} LessTransitive(a: string, b: string, c: string)
    requires Less(a, b) && Less(b, c)
    ensures Less(a, c)
  {
    if |a| > 0 && a[0] == b[0] && b[0] == c[0] { LessTransitive(a[1..], b[1..], c[1..]); }
  }

  lemma {:induction false} InOrder(xs: seq<Match>, i: nat, j: nat)
    requires Descending(xs) && i < j < |xs|
    ensures xs[i] == xs[j] || Above(xs[i], xs[j])
  {
    assert xs[j - 1] == xs[j - 1 + 1] || Above(xs[j - 1], xs[j - 1 + 1]);
    if i < j - 1 {
      InOrder(xs, i, j - 1);
      if Less(xs[j - 1].1, xs[i].1) && Less(xs[j].1, xs[j - 1].1) {
        LessTransitive(xs[j].1, xs[j - 1].1, xs[i].1);
      }
    }
  }

  /** And in order: of two listed entries the first is the more similar one, or as similar and not under the smaller
      identifier. */
  lemma ListedInOrder(text: Text, h: Record, existing: seq<Entry>, i: nat, j: nat)
    requires i < j < |Judged(text, h, existing).similarIds|
    ensures var ids, words := Judged(text, h, existing).similarIds, text.tokens(h.statement);
            exists e, f :: && e in existing && f in existing && e.0 == ids[i] && f.0 == ids[j]
                           && (Jaccard(words, text.tokens(e.1)) > Jaccard(words, text.tokens(f.1))
                               || (Jaccard(words, text.tokens(e.1)) == Jaccard(words, text.tokens(f.1))
                                   && (ids[i] == ids[j] || Less(ids[j], ids[i]))))
  {
    hide Jaccard, SortDown, Matches, Less;
    var sorted := SortDown(Matches(text, h, existing));
    SortedMatches(text, h, existing);
    assert sorted[i] in sorted && sorted[j] in sorted;
    var e :| e in existing && Accounts(text, h, e, sorted[i]);
    var f :| f in existing && Accounts(text, h, f, sorted[j]);
    InOrder(sorted, i, j);
  }
}
