/** The loop that admits generated hypotheses: quality gate, duplicate check, store, accepted list. */
module AdmissionLoop {
  import opened Similarity
  import opened Admission

  /** The store's rows in order of insertion, with the loop's own list and counters. */
  datatype Ledger = Ledger(
    rows: seq<Record>, existing: seq<Entry>, inserted: nat, rejected: nat, nearDuplicates: nat)

  predicate HasId(rows: seq<Record>, id: string) {
    exists i :: 0 <= i < |rows| && rows[i].id == id
  }

  /** A row whose identifier is taken is not inserted. */
  function Inserted(rows: seq<Record>, h: Record): seq<Record> {
    if HasId(rows, h.id) then rows else rows + [h]
  }

  /** Identifier and statement of every row that is not rejected. */
  function Statements(rows: seq<Record>): seq<Entry> {
    if |rows| == 0 then []
    else
      var last := rows[|rows| - 1];
      Statements(rows[..|rows| - 1]) + if last.status == Rejected then [] else [(last.id, last.statement)]
  }

  function Refused(h: Record, reason: Reason): Record {
    h.(status := Rejected, reason := reason)
  }

  /** One candidate. */
  function Admit(text: Text, s: Ledger, h: Record): Ledger {
    var complaints := Complaints(text, h);
    if complaints != [] then
      s.(rows := Inserted(s.rows, Refused(h, FailedChecks(complaints))), rejected := s.rejected + 1)
    else
      var v := Judged(text, h, s.existing);
      if v.tier == Duplicate && |v.similarIds| > 0 then
        s.(rows := Inserted(s.rows, Refused(h, DuplicateOf(v.similarIds[0]))), rejected := s.rejected + 1)
      else
        var near := v.tier == NearDuplicate;
        var k := if near then h.(similarTo := v.similarIds) else h;
        var t := if near then s.(nearDuplicates := s.nearDuplicates + 1) else s;
        if HasId(s.rows, h.id) then t
        else t.(rows := t.rows + [k], existing := t.existing + [(h.id, h.statement)], inserted := t.inserted + 1)
  }

  function AdmitAll(text: Text, s: Ledger, hs: seq<Record>): Ledger
    decreases |hs|
  {
    if |hs| == 0 then s else Admit(text, AdmitAll(text, s, hs[..|hs| - 1]), hs[|hs| - 1])
  }

  /** Paper by paper, each with its generated candidates. */
  function AdmitPapers(text: Text, s: Ledger, papers: seq<seq<Record>>): Ledger
    decreases |papers|
  {
    if |papers| == 0 then s else AdmitAll(text, AdmitPapers(text, s, papers[..|papers| - 1]), papers[|papers| - 1])
  }

  class HypothesisStore {
    var rows: seq<Record>

    constructor ()
      ensures rows == []
    {
      rows := [];
    }

    method Insert(h: Record) returns (ok: bool)
      modifies this
      ensures ok == !HasId(old(rows), h.id) && rows == Inserted(old(rows), h)
    {
      ok := !HasId(rows, h.id);
      if ok {
        rows := rows + [h];
      }
    }

    method AllStatements() returns (r: seq<Entry>)
      ensures r == Statements(rows)
    {
      r := [];
      for i := 0 to |rows|
        invariant r == Statements(rows[..i])
      {
        assert rows[..i + 1][..i] == rows[..i];
        if rows[i].status != Rejected {
          r := r + [(rows[i].id, rows[i].statement)];
        }
      }
      assert rows[..|rows|] == rows;
    }
  }

  method Generate(text: Text, store: HypothesisStore, papers: seq<seq<Record>>)
    returns (existing: seq<Entry>, inserted: nat, rejected: nat, nearDuplicates: nat)
    modifies store
    ensures Ledger(store.rows, existing, inserted, rejected, nearDuplicates)
         == AdmitPapers(text, Ledger(old(store.rows), Statements(old(store.rows)), 0, 0, 0), papers)
  {
    hide Complaints, Judged, HasId, Statements;
    existing := store.AllStatements();
    inserted, rejected, nearDuplicates := 0, 0, 0;
    ghost var start := Ledger(store.rows, existing, 0, 0, 0);
    for i := 0 to |papers|
      invariant Ledger(store.rows, existing, inserted, rejected, nearDuplicates)
             == AdmitPapers(text, start, papers[..i])
    {
      assert papers[..i + 1][..i] == papers[..i];
      var candidates := papers[i];
      ghost var before := Ledger(store.rows, existing, inserted, rejected, nearDuplicates);
      for j := 0 to |candidates|
        invariant Ledger(store.rows, existing, inserted, rejected, nearDuplicates)
               == AdmitAll(text, before, candidates[..j])
      {
        assert candidates[..j + 1][..j] == candidates[..j];
        var h := candidates[j];
        var passed, reasons := CheckQuality(text, h);
        PassesIff(text, h);
        if !passed {
          var ok := store.Insert(h.(status := Rejected, reason := FailedChecks(reasons)));
          rejected := rejected + 1;
          continue;
        }
        var v := CheckDuplicates(text, h, existing);
        if v.tier == Duplicate {
          DuplicateHasTwin(text, h, existing);
          var ok := store.Insert(h.(status := Rejected, reason := DuplicateOf(v.similarIds[0])));
          rejected := rejected + 1;
          continue;
        }
        if v.tier == NearDuplicate {
          h := h.(similarTo := v.similarIds);
          nearDuplicates := nearDuplicates + 1;
        }
        var ok := store.Insert(h);
        if ok {
          existing := existing + [(h.id, h.statement)];
          inserted := inserted + 1;
        }
      }
      assert candidates[..|candidates|] == candidates;
    }
    assert papers[..|papers|] == papers;
  }

  /** Being a duplicate means having a twin: another entry with exactly the same, non-empty, token set.
      The rejection names one. */
  lemma DuplicateHasTwin(text: Text, h: Record, existing: seq<Entry>)
    ensures var v := Judged(text, h, existing);
            && (v.tier == Duplicate <==> exists e :: e in existing && Twin(text, h, e))
            && (v.tier == Duplicate ==>
                  && |v.similarIds| > 0
                  && exists e :: e in existing && e.0 == v.similarIds[0] && Twin(text, h, e))
  {
    hide Judged;
    JudgedSound(text, h, existing);
    var v := Judged(text, h, existing);
    forall e | e in existing ensures Similar(text, h, e, EXACT) <==> Twin(text, h, e) {
      FullSimilarityIff(text.tokens(h.statement), text.tokens(e.1));
    }
    if v.tier == Duplicate {
      TopIsExact(text, h, existing);
    }
  }

  lemma TopIsExact(text: Text, h: Record, existing: seq<Entry>)
    ensures Judged(text, h, existing).tier == Duplicate ==> Judged(text, h, existing).maxSimilarity >= EXACT
  {
    hide SortDown, Matches;
  }

  predicate Twin(text: Text, h: Record, e: Entry) {
    e.0 != h.id && text.tokens(e.1) == text.tokens(h.statement) && text.tokens(e.1) != {}
  }

  // ---- what every run keeps ----

  predicate DistinctIds(rows: seq<Record>) {
    forall i, j :: 0 <= i < j < |rows| ==> rows[i].id != rows[j].id
  }

  /** An entry newly admitted at position k: substantial, and unlike everything before it. */
  predicate Novel(text: Text, existing: seq<Entry>, k: nat)
    requires k < |existing|
  {
    && |text.tokens(existing[k].1)| >= 3
    && forall j :: 0 <= j < k ==> text.tokens(existing[j].1) != text.tokens(existing[k].1)
  }

  /** The loop's list mirrors the store; what it has added is novel. */
  ghost predicate Sane(text: Text, start: seq<Entry>, s: Ledger) {
    && DistinctIds(s.rows)
    && s.existing == Statements(s.rows)
    && start <= s.existing && |s.existing| == |start| + s.inserted
    && forall k :: |start| <= k < |s.existing| ==> Novel(text, s.existing, k)
  }

  lemma {:induction false} StatementHasRow(rows: seq<Record>, e: Entry)
    requires e in Statements(rows)
    ensures HasId(rows, e.0)
  {
    var front, last := rows[..|rows| - 1], rows[|rows| - 1];
    if e in Statements(front) {
      StatementHasRow(front, e);
      var i :| 0 <= i < |front| && front[i].id == e.0;
      assert rows[i].id == e.0;
    } else {
      assert rows[|rows| - 1].id == e.0;
    }
  }

  lemma StatementsAppend(rows: seq<Record>, h: Record)
    ensures Statements(rows + [h])
         == Statements(rows) + if h.status == Rejected then [] else [(h.id, h.statement)]
  {
    assert (rows + [h])[..|rows|] == rows;
  }

  lemma DistinctAppend(rows: seq<Record>, h: Record)
    requires DistinctIds(rows)
    ensures DistinctIds(Inserted(rows, h))
  {
  }

  /** A candidate is admitted exactly when it passes every quality check, its identifier is new and no
      accepted entry has its token set. */
  lemma AdmittedIff(text: Text, start: seq<Entry>, s: Ledger, h: Record)
    requires Sane(text, start, s)
    ensures var t := Admit(text, s, h);
            var admitted := Passes(text, h) && !HasId(s.rows, h.id)
                            && forall e :: e in s.existing ==> text.tokens(e.1) != text.tokens(h.statement);
            && (admitted ==> t.existing == s.existing + [(h.id, h.statement)] && t.inserted == s.inserted + 1)
            && (!admitted ==> t.existing == s.existing && t.inserted == s.inserted)
  {
    hide Judged, Complaints, HasId, Statements;
    PassesIff(text, h);
    DuplicateHasTwin(text, h, s.existing);
    if Passes(text, h) && !HasId(s.rows, h.id) {
      forall e | e in s.existing ensures Twin(text, h, e) <==> text.tokens(e.1) == text.tokens(h.statement) {
        StatementHasRow(s.rows, e);
      }
    }
  }

  /** A candidate that fails or has a twin is kept in the store as rejected, and counted. */
  lemma RefusedIff(text: Text, s: Ledger, h: Record)
    ensures var t := Admit(text, s, h);
            var refused := !Passes(text, h) || exists e :: e in s.existing && Twin(text, h, e);
            && t.rejected == s.rejected + (if refused then 1 else 0)
            && (refused && !HasId(s.rows, h.id) ==>
                  && |t.rows| == |s.rows| + 1 && t.rows[..|s.rows|] == s.rows
                  && t.rows[|s.rows|].id == h.id && t.rows[|s.rows|].status == Rejected)
  {
    hide Judged, Complaints, HasId, Statements;
    PassesIff(text, h);
    DuplicateHasTwin(text, h, s.existing);
  }

  /** What a candidate leaves in the store when its identifier is new: itself, marked rejected with its complaints
      or with the twin it duplicates, or as it is but for the similar entries noted on a near duplicate. Near
      duplicates that are let through are counted, and nothing else about the loop changes but its counters. */
  lemma RowKept(text: Text, s: Ledger, h: Record)
    ensures var t, complaints, v := Admit(text, s, h), Complaints(text, h), Judged(text, h, s.existing);
            var near := v.tier == NearDuplicate;
            var isNew := forall i :: 0 <= i < |s.rows| ==> s.rows[i].id != h.id;
            && (!isNew ==> t.rows == s.rows)
            && (isNew && complaints != [] ==>
                  t.rows == s.rows + [h.(status := Rejected, reason := FailedChecks(complaints))])
            && (isNew && complaints == [] && v.tier == Duplicate ==>
                  exists e :: && e in s.existing && Twin(text, h, e)
                              && t.rows == s.rows + [h.(status := Rejected, reason := DuplicateOf(e.0))])
            && (isNew && complaints == [] && v.tier != Duplicate ==>
                  t.rows == s.rows + [if near then h.(similarTo := v.similarIds) else h])
            && t.nearDuplicates == s.nearDuplicates + (if complaints == [] && near then 1 else 0)
  {
    hide Judged, Complaints;
    DuplicateHasTwin(text, h, s.existing);
  }

  lemma AdmitKeeps(text: Text, start: seq<Entry>, s: Ledger, h: Record)
    requires Sane(text, start, s) && h.status != Rejected
    ensures Sane(text, start, Admit(text, s, h))
  {
    hide Judged, Complaints, Statements, DistinctIds;
    var t := Admit(text, s, h);
    AdmittedIff(text, start, s, h);
    RowsAfter(text, s, h);
    forall k | |start| <= k < |t.existing| ensures Novel(text, t.existing, k) {
      if k < |s.existing| { assert Novel(text, s.existing, k); }
    }
  }

  lemma RowsAfter(text: Text, s: Ledger, h: Record)
    requires DistinctIds(s.rows) && s.existing == Statements(s.rows) && h.status != Rejected
    ensures var t := Admit(text, s, h);
            DistinctIds(t.rows) && t.existing == Statements(t.rows)
  {
    hide Judged, Complaints, Statements, DistinctIds;
    var complaints, v := Complaints(text, h), Judged(text, h, s.existing);
    var k := if complaints != [] then Refused(h, FailedChecks(complaints))
             else if v.tier == Duplicate && |v.similarIds| > 0 then Refused(h, DuplicateOf(v.similarIds[0]))
             else if v.tier == NearDuplicate then h.(similarTo := v.similarIds) else h;
    DistinctAppend(s.rows, k);
    StatementsAppend(s.rows, k);
  }

  lemma {:induction false} AdmitAllKeeps(text: Text, start: seq<Entry>, s: Ledger, hs: seq<Record>)
    requires Sane(text, start, s) && forall h :: h in hs ==> h.status != Rejected
    ensures Sane(text, start, AdmitAll(text, s, hs))
    decreases |hs|
  {
    hide Sane, Admit;
    if |hs| > 0 {
      AdmitAllKeeps(text, start, s, hs[..|hs| - 1]);
      AdmitKeeps(text, start, AdmitAll(text, s, hs[..|hs| - 1]), hs[|hs| - 1]);
    }
  }

  lemma {:induction false} AdmitPapersKeeps(text: Text, start: seq<Entry>, s: Ledger, papers: seq<seq<Record>>)
    requires Sane(text, start, s) && forall hs, h :: hs in papers && h in hs ==> h.status != Rejected
    ensures Sane(text, start, AdmitPapers(text, s, papers))
    decreases |papers|
  {
    hide Sane, AdmitAll;
    if |papers| > 0 {
      AdmitPapersKeeps(text, start, s, papers[..|papers| - 1]);
      assert papers[|papers| - 1] in papers;
      AdmitAllKeeps(text, start, AdmitPapers(text, s, papers[..|papers| - 1]), papers[|papers| - 1]);
    }
  }

  /** After any run on any store: the accepted list is what the store holds unrejected, earlier entries
      first; every entry the run admitted has at least three content words and shares its token set with
      no other accepted entry. */
  lemma AcceptedSetDuplicateFree(text: Text, rows: seq<Record>, papers: seq<seq<Record>>, j: nat, k: nat)
    requires DistinctIds(rows) && forall hs, h :: hs in papers && h in hs ==> h.status == Draft
    ensures var start := Statements(rows);
            var end := AdmitPapers(text, Ledger(rows, start, 0, 0, 0), papers);
            && start <= end.existing == Statements(end.rows) && DistinctIds(end.rows)
            && |end.existing| == |start| + end.inserted
            && (j < |end.existing| && |start| <= k < |end.existing| && j != k ==>
                  && text.tokens(end.existing[j].1) != text.tokens(end.existing[k].1)
                  && |text.tokens(end.existing[k].1)| >= 3
                  && Jaccard(text.tokens(end.existing[j].1), text.tokens(end.existing[k].1)) < EXACT)
  {
    hide AdmitPapers, Statements, DistinctIds, Jaccard;
    var start := Statements(rows);
    AdmitPapersKeeps(text, start, Ledger(rows, start, 0, 0, 0), papers);
    var end := AdmitPapers(text, Ledger(rows, start, 0, 0, 0), papers);
    if j < |end.existing| && |start| <= k < |end.existing| && j != k {
      assert Novel(text, end.existing, k);
      if j > k { assert Novel(text, end.existing, j); }
      FullSimilarityIff(text.tokens(end.existing[j].1), text.tokens(end.existing[k].1));
    }
  }

  // ---- no candidate is lost ----

  /** Rows are only ever added, and all of them under the identifiers given. */
  ghost predicate Extends(a: seq<Record>, b: seq<Record>, ids: set<string>) {
    a <= b && forall k :: |a| <= k < |b| ==> b[k].id in ids
  }

  lemma OneStored(text: Text, s: Ledger, h: Record)
    ensures var t := Admit(text, s, h);
            Extends(s.rows, t.rows, {h.id}) && HasId(t.rows, h.id)
  {
    hide Judged, Complaints;
    RowKept(text, s, h);
    var t := Admit(text, s, h);
    if |t.rows| > |s.rows| { assert t.rows[|s.rows|].id == h.id; }
  }

  lemma StaysStored(a: seq<Record>, b: seq<Record>, ids: set<string>, id: string)
    requires Extends(a, b, ids) && HasId(a, id)
    ensures HasId(b, id)
  {
    var i :| 0 <= i < |a| && a[i].id == id;
    assert b[i].id == id;
  }

  lemma ExtendsFurther(a: seq<Record>, b: seq<Record>, c: seq<Record>, x: set<string>, y: set<string>)
    requires Extends(a, b, x) && Extends(b, c, y)
    ensures Extends(a, c, x + y)
  {
  }

  function IdsOf(hs: seq<Record>): set<string> {
    set h | h in hs :: h.id
  }

  lemma {:induction false} CandidatesStored(text: Text, s: Ledger, hs: seq<Record>)
    ensures var t := AdmitAll(text, s, hs);
            Extends(s.rows, t.rows, IdsOf(hs)) && forall h :: h in hs ==> HasId(t.rows, h.id)
    decreases |hs|
  {
    hide Admit, HasId, Extends;
    if |hs| > 0 {
      var front, last := hs[..|hs| - 1], hs[|hs| - 1];
      assert hs == front + [last];
      CandidatesStored(text, s, front);
      var before, t := AdmitAll(text, s, front), AdmitAll(text, s, hs);
      OneStored(text, before, last);
      ExtendsFurther(s.rows, before.rows, t.rows, IdsOf(front), {last.id});
      assert IdsOf(hs) == IdsOf(front) + {last.id};
      forall h | h in front ensures HasId(t.rows, h.id) {
        StaysStored(before.rows, t.rows, {last.id}, h.id);
      }
    } else {
      NothingAdded(s.rows);
      assert IdsOf([]) == {};
    }
  }

  lemma NothingAdded(rows: seq<Record>)
    ensures Extends(rows, rows, {})
  {
  }

  ghost predicate Candidate(papers: seq<seq<Record>>, id: string) {
    exists hs, h :: hs in papers && h in hs && h.id == id
  }

  lemma CandidateOf(papers: seq<seq<Record>>, last: seq<Record>, id: string)
    ensures Candidate(papers + [last], id) <==> Candidate(papers, id) || id in IdsOf(last)
  {
    if Candidate(papers, id) {
      var hs, h :| hs in papers && h in hs && h.id == id;
      assert hs in papers + [last];
    }
    if id in IdsOf(last) {
      var h :| h in last && h.id == id;
      assert last in papers + [last];
    }
  }

  /** Every candidate of every paper is in the store after the run, admitted, rejected, or its identifier taken
      before; the store keeps what it held and gains nothing but candidates. */
  lemma {:induction false} EveryCandidateStored(text: Text, s: Ledger, papers: seq<seq<Record>>, id: string, k: nat)
    ensures var t := AdmitPapers(text, s, papers);
            && s.rows <= t.rows
            && (|s.rows| <= k < |t.rows| ==> Candidate(papers, t.rows[k].id))
            && (Candidate(papers, id) ==> exists i :: 0 <= i < |t.rows| && t.rows[i].id == id)
    decreases |papers|
  {
    hide AdmitAll, HasId, Candidate, IdsOf;
    if |papers| > 0 {
      var front, last := papers[..|papers| - 1], papers[|papers| - 1];
      assert papers == front + [last];
      EveryCandidateStored(text, s, front, id, k);
      var before, t := AdmitPapers(text, s, front), AdmitPapers(text, s, papers);
      CandidatesStored(text, before, last);
      CandidateOf(front, last, id);
      if k < |t.rows| { CandidateOf(front, last, t.rows[k].id); }
      if Candidate(front, id) {
        var i :| 0 <= i < |before.rows| && before.rows[i].id == id;
        assert t.rows[i].id == id;
      } else if Candidate(papers, id) {
        StoredId(t.rows, last, id);
      }
    } else {
      NoCandidate(id);
    }
  }

  lemma StoredId(rows: seq<Record>, hs: seq<Record>, id: string)
    requires id in IdsOf(hs) && forall h :: h in hs ==> HasId(rows, h.id)
    ensures exists i :: 0 <= i < |rows| && rows[i].id == id
  {
  }

  lemma NoCandidate(id: string)
    ensures !Candidate([], id)
  {
  }
}
