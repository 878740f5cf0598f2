/** What a recording file says about a question, however often the question is listed in it. */
module ReplayFiles {
  import opened Wrappers
  import opened Canonical
  import opened Replay

  // ---- loading ------------------------------------------------------------------------------------

  function ResponsesOf(entry: Entry): seq<Json> {
    match entry.payload
    case Single(response) => [response]
    case Many(responses) => responses
  }

  /** All that is listed for `question`, from the top of the file to its end. */
  function Listed(entries: seq<Entry>, question: string): seq<Json> {
    if entries == [] then []
    else (if EntryQuestion(entries[0]) == question then ResponsesOf(entries[0]) else []) + Listed(entries[1..], question)
  }

  /** The question is listed at `i`, and nowhere else. */
  predicate OnlyAt(entries: seq<Entry>, question: string, i: nat)
    requires i < |entries|
  {
    forall k | 0 <= k < |entries| :: EntryQuestion(entries[k]) == question <==> k == i
  }

  lemma {:induction false} ListedLast(entries: seq<Entry>, entry: Entry, question: string)
    ensures Listed(entries + [entry], question)
         == Listed(entries, question) + if EntryQuestion(entry) == question then ResponsesOf(entry) else []
    decreases |entries|
  {
    hide EntryQuestion, ResponsesOf;
    var all := entries + [entry];
    if entries != [] {
      assert all[1..] == entries[1..] + [entry];
      ListedLast(entries[1..], entry, question);
    }
  }

  /** The question is listed once, with one response. */
  ghost predicate ListedOnce(entries: seq<Entry>, question: string) {
    exists i | 0 <= i < |entries| :: OnlyAt(entries, question, i) && entries[i].payload.Single?
  }

  ghost predicate IsListed(entries: seq<Entry>, question: string) {
    exists i | 0 <= i < |entries| :: EntryQuestion(entries[i]) == question
  }

  /** Loading keeps every listed answer, in the order of the file; an answer is fixed, to be given
      again and again, iff its question is listed once and with one response. */
  lemma {:induction false} LoadKeepsAll(entries: seq<Entry>, question: string)
    ensures question in Loaded(entries) <==> IsListed(entries, question)
    ensures question in Loaded(entries) ==> IntoQueue(Loaded(entries)[question]) == Listed(entries, question)
    ensures question in Loaded(entries) ==> (Loaded(entries)[question].Fixed? <==> ListedOnce(entries, question))
    ensures question in Loaded(entries) && Loaded(entries)[question].Fixed? ==> !Loaded(entries)[question].asked
    decreases |entries|
  {
    hide EntryQuestion, IsListed, ListedOnce, Listed;
    if entries == [] {
      NothingListed(question);
    } else {
      var init, last := entries[..|entries| - 1], entries[|entries| - 1];
      assert entries == init + [last];
      LoadKeepsAll(init, question);
      ListedLast(init, last, question);
      OnceMore(init, last, question);
      if !IsListed(init, question) {
        UnlistedIsEmpty(init, question);
      }
    }
  }

  lemma NothingListed(question: string)
    ensures !IsListed([], question)
  {
  }

  lemma {:induction false} UnlistedIsEmpty(entries: seq<Entry>, question: string)
    requires !IsListed(entries, question)
    ensures Listed(entries, question) == []
    decreases |entries|
  {
    hide EntryQuestion;
    if entries != [] {
      assert EntryQuestion(entries[0]) != question;
      assert forall i | 0 <= i < |entries| - 1 :: entries[1..][i] == entries[i + 1];
      UnlistedIsEmpty(entries[1..], question);
    }
  }

  lemma OnceMore(init: seq<Entry>, last: Entry, question: string)
    ensures IsListed(init + [last], question) <==> IsListed(init, question) || EntryQuestion(last) == question
    ensures ListedOnce(init + [last], question) <==>
            if EntryQuestion(last) == question then !IsListed(init, question) && last.payload.Single?
            else ListedOnce(init, question)
  {
    hide EntryQuestion;
    var all := init + [last];
    assert all[|init|] == last && forall k | 0 <= k < |init| :: all[k] == init[k];
    if IsListed(init, question) {
      var i :| 0 <= i < |init| && EntryQuestion(init[i]) == question;
      assert EntryQuestion(all[i]) == question;
    }
    if ListedOnce(init, question) && EntryQuestion(last) != question {
      var i :| 0 <= i < |init| && OnlyAt(init, question, i) && init[i].payload.Single?;
      assert OnlyAt(all, question, i);
    }
    if EntryQuestion(last) == question && !IsListed(init, question) {
      assert OnlyAt(all, question, |init|);
    }
    if i :| 0 <= i < |all| && OnlyAt(all, question, i) && all[i].payload.Single? {
      if i < |init| {
        assert OnlyAt(init, question, i);
      }
    }
  }

  // ---- grouping ---------------------------------------------------------------------------------------

  /** The question was asked at `i`, and not before. */
  predicate FirstAsked(trace: seq<Read>, i: nat)
    requires i < |trace|
  {
    forall k | 0 <= k < i :: QuestionOf(trace[k]) != QuestionOf(trace[i])
  }

  lemma {:induction false} AskedIff(trace: seq<Read>, question: string)
    ensures AnswersTo(trace, question) != [] <==> exists i | 0 <= i < |trace| :: QuestionOf(trace[i]) == question
    decreases |trace|
  {
    hide QuestionOf;
    if trace != [] {
      var init, last := trace[..|trace| - 1], trace[|trace| - 1];
      AskedIff(init, question);
      assert forall k | 0 <= k < |init| :: init[k] == trace[k];
      if QuestionOf(last) == question {
        assert QuestionOf(trace[|trace| - 1]) == question;
      }
    }
  }

  /** The places where a question was asked first, in order. */
  function FirstPlaces(trace: seq<Read>, n: nat): (places: seq<nat>)
    requires n <= |trace|
    ensures forall k | 0 <= k < |places| :: places[k] < n && FirstAsked(trace, places[k])
    ensures forall i, k | 0 <= i < k < |places| :: places[i] < places[k]
    ensures forall i: nat | i < n && FirstAsked(trace, i) :: i in places
  {
    hide FirstAsked;
    if n == 0 then []
    else if FirstAsked(trace, n - 1) then FirstPlaces(trace, n - 1) + [n - 1]
    else FirstPlaces(trace, n - 1)
  }

  function ReadsAt(trace: seq<Read>, places: seq<nat>): (found: seq<Read>)
    requires forall k | 0 <= k < |places| :: places[k] < |trace|
    ensures |found| == |places|
  {
    seq(|places|, k requires 0 <= k < |places| => trace[places[k]])
  }

  lemma NextFirstRead(trace: seq<Read>, n: nat)
    requires 0 < n <= |trace|
    ensures FirstReads(trace[..n])
         == FirstReads(trace[..n - 1]) + if FirstAsked(trace, n - 1) then [trace[n - 1]] else []
  {
    hide QuestionOf;
    assert trace[..n][..n - 1] == trace[..n - 1];
    var question := QuestionOf(trace[n - 1]);
    AskedIff(trace[..n - 1], question);
    assert forall k | 0 <= k < n - 1 :: trace[..n - 1][k] == trace[k];
    if !FirstAsked(trace, n - 1) {
      var k :| 0 <= k < n - 1 && QuestionOf(trace[k]) == question;
      assert QuestionOf(trace[..n - 1][k]) == question;
    }
  }

  lemma {:induction false} FirstReadsArePlaced(trace: seq<Read>, n: nat)
    requires n <= |trace|
    ensures FirstReads(trace[..n]) == ReadsAt(trace, FirstPlaces(trace, n))
    decreases n
  {
    hide FirstAsked;
    if n > 0 {
      FirstReadsArePlaced(trace, n - 1);
      NextFirstRead(trace, n);
      hide FirstReads;
      var before := FirstPlaces(trace, n - 1);
      assert ReadsAt(trace, before + [n - 1]) == ReadsAt(trace, before) + [trace[n - 1]];
    }
  }

  /** A recording lists each question once, in the order of first use, with the key it had then and
      all its answers: one for all if they say the same, else each in turn. */
  lemma GroupedInOrder(trace: seq<Read>)
    ensures var places, grouped := FirstPlaces(trace, |trace|), Grouped(trace);
            |grouped| == |places| && forall k | 0 <= k < |places| :: IsEntryOf(grouped[k], trace, trace[places[k]])
  {
    hide QuestionOf, AnswersTo, Uniform, FirstAsked, FirstPlaces, FirstReads;
    assert trace[..|trace|] == trace;
    FirstReadsArePlaced(trace, |trace|);
    FirstReadsAreAsked(trace);
    var order, grouped := FirstReads(trace), Grouped(trace);
    forall k | 0 <= k < |order| ensures IsEntryOf(grouped[k], trace, order[k]) {
      assert order[k] in order;
    }
  }

  predicate IsEntryOf(entry: Entry, trace: seq<Read>, read: Read) {
    var values := AnswersTo(trace, QuestionOf(read));
    && entry.kind == read.kind && entry.key == read.key && values != []
    && if Uniform(values) then entry.payload == Single(values[0]) else entry.payload == Many(values)
  }

  // ---- answers beyond those recorded ----------------------------------------------------------------

  /** The run got one answer to `question`, if it got any, up to the order of fields. */
  predicate OneAnswer(trace: seq<Read>, question: string) {
    forall r, s | r in trace && s in trace && QuestionOf(r) == question && QuestionOf(s) == question ::
      Same(r.response, s.response)
  }

  lemma {:induction false} AnswersAre(trace: seq<Read>, question: string)
    ensures forall value :: value in AnswersTo(trace, question) <==>
              exists r :: r in trace && QuestionOf(r) == question && r.response == value
    decreases |trace|
  {
    hide QuestionOf;
    if trace != [] {
      var init, last := trace[..|trace| - 1], trace[|trace| - 1];
      AnswersAre(init, question);
      assert trace == init + [last];
    }
  }

  lemma UniformIff(trace: seq<Read>, question: string)
    requires forall r :: r in trace ==> WellFormed(r.response)
    ensures Uniform(AnswersTo(trace, question)) <==> OneAnswer(trace, question)
  {
    hide QuestionOf, AnswersTo, Text, Same, WellFormed;
    var values := AnswersTo(trace, question);
    AnswersAre(trace, question);
    forall v, w | v in values && w in values ensures Text(v) == Text(w) <==> Same(v, w) {
      SameTexts(v, w);
    }
    if Uniform(values) {
      forall r, s | r in trace && s in trace && QuestionOf(r) == question && QuestionOf(s) == question
        ensures Same(r.response, s.response)
      {
        assert r.response in values && s.response in values;
        var i :| 0 <= i < |values| && values[i] == r.response;
        var k :| 0 <= k < |values| && values[k] == s.response;
      }
    } else {
      var i :| 0 <= i < |values| && Text(values[i]) != Text(values[0]);
      assert values[i] in values && values[0] in values;
      var r :| r in trace && QuestionOf(r) == question && r.response == values[i];
      var s :| s in trace && QuestionOf(s) == question && s.response == values[0];
      assert !Same(r.response, s.response);
    }
  }

  lemma SameTexts(a: Json, b: Json)
    requires WellFormed(a) && WellFormed(b)
    ensures Text(a) == Text(b) <==> Same(a, b)
  {
    if Text(a) == Text(b) { SameOfText(a, b); }
    if Same(a, b) { TextOfSame(a, b); }
  }

  /** A replay may ask more often than the recorded run did iff that run always got one answer. */
  lemma AnsweredBeyondIff(trace: seq<Read>, question: string, before: nat)
    requires forall r :: r in trace ==> WellFormed(r.response)
    requires before >= |AnswersTo(trace, question)| > 0
    ensures Served(trace, question, before).Some? <==> OneAnswer(trace, question)
  {
    hide QuestionOf, AnswersTo, Uniform, OneAnswer;
    UniformIff(trace, question);
  }
}
