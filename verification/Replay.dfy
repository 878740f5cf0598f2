/** Recording what a run asked, and answering a second run from it. */
module Replay {
  import opened Wrappers
  import opened Canonical
  import opened Codecs

  /** One line of a recording: a question and the answer the run took. */
  datatype Read = Read(kind: string, key: Json, response: Json)

  function QuestionOf(read: Read): string {
    QuestionText(read.kind, read.key)
  }

  /** What the grouped document says about one question. */
  datatype Payload = Single(response: Json) | Many(responses: seq<Json>)
  datatype Entry = Entry(kind: string, key: Json, payload: Payload)

  function EntryQuestion(entry: Entry): string {
    QuestionText(entry.kind, entry.key)
  }

  // ---- grouping -----------------------------------------------------------------------------

  /** Every answer to `question`, in the order the run took them. */
  function AnswersTo(trace: seq<Read>, question: string): seq<Json> {
    if trace == [] then []
    else
      var last := trace[|trace| - 1];
      AnswersTo(trace[..|trace| - 1], question)
      + if QuestionOf(last) == question then [last.response] else []
  }

  /** The reads that asked their question first. */
  function FirstReads(trace: seq<Read>): seq<Read> {
    if trace == [] then []
    else
      var last := trace[|trace| - 1];
      FirstReads(trace[..|trace| - 1])
      + if AnswersTo(trace[..|trace| - 1], QuestionOf(last)) == [] then [last] else []
  }

  predicate Uniform(values: seq<Json>) {
    forall i | 0 <= i < |values| :: Text(values[i]) == Text(values[0])
  }

  function PayloadOf(values: seq<Json>): Payload
    requires values != []
  {
    if Uniform(values) then Single(values[0]) else Many(values)
  }

  // ---- the answers of a replay ----------------------------------------------------------------

  datatype Answer = Fixed(response: Json, asked: bool) | Ordered(queue: seq<Json>)

  function IntoQueue(answer: Answer): seq<Json> {
    match answer
    case Fixed(response, _) => [response]
    case Ordered(queue) => queue
  }

  function Loaded(entries: seq<Entry>): map<string, Answer> {
    if entries == [] then map[]
    else
      var store, last := Loaded(entries[..|entries| - 1]), entries[|entries| - 1];
      store[EntryQuestion(last) := LoadedAnswer(store, last)]
  }

  function LoadedAnswer(store: map<string, Answer>, entry: Entry): Answer {
    var id := EntryQuestion(entry);
    match entry.payload
    case Single(response) =>
      if id !in store then Fixed(response, false) else Ordered(IntoQueue(store[id]) + [response])
    case Many(responses) =>
      Ordered((if id !in store then [] else IntoQueue(store[id])) + responses)
  }

  /** One question put to a replay: the answer, if there is one, and what remains. */
  function Asked(store: map<string, Answer>, question: string): (Option<Json>, map<string, Answer>) {
    if question !in store then (None, store)
    else
      match store[question]
      case Fixed(response, _) => (Some(response), store[question := Fixed(response, true)])
      case Ordered(queue) =>
        if queue == [] then (None, store) else (Some(queue[0]), store[question := Ordered(queue[1..])])
  }

  function IsUnused(answer: Answer): bool {
    match answer
    case Fixed(_, asked) => !asked
    case Ordered(queue) => queue != []
  }

  /** The exit status of a strict replay that leaves answers unused. */
  const UNCONSUMED_EXIT: nat := 98

  /** The questions with an answer that was not asked for. */
  function Unused(store: map<string, Answer>): set<string> {
    set question | question in store && IsUnused(store[question])
  }

  class Recording {
    var answers: map<string, Answer>

    /** `load_replay`. */
    constructor Load(inputs: seq<Entry>)
      ensures answers == Loaded(inputs)
    {
      answers := map[];
      new;
      var n := 0;
      while n < |inputs|
        invariant 0 <= n <= |inputs|
        invariant answers == Loaded(inputs[..n])
      {
        var input := inputs[n];
        var id := EntryQuestion(input);
        var existing := if id in answers then Some(answers[id]) else None;
        answers := answers - {id};
        var answer;
        match input.payload {
          case Single(response) =>
            match existing {
              case None => answer := Fixed(response, false);
              case Some(before) => answer := Ordered(IntoQueue(before) + [response]);
            }
          case Many(responses) =>
            answer := Ordered((if existing.None? then [] else IntoQueue(existing.value)) + responses);
        }
        assert inputs[..n + 1][..n] == inputs[..n];
        ghost var store := Loaded(inputs[..n]);
        answers := answers[id := answer];
        assert answers == store[id := LoadedAnswer(store, input)];
        n := n + 1;
      }
      assert inputs[..|inputs|] == inputs;
    }

    /** `answer`, in replay: `None` ends the run with status 97. */
    method Ask(kind: string, key: Json) returns (recorded: Option<Json>)
      modifies this
      ensures (recorded, answers) == Asked(old(answers), QuestionText(kind, key))
    {
      var id := QuestionText(kind, key);
      recorded := None;
      if id in answers {
        match answers[id] {
          case Fixed(response, _) =>
            answers := answers[id := Fixed(response, true)];
            recorded := Some(response);
          case Ordered(queue) =>
            if queue != [] {
              answers := answers[id := Ordered(queue[1..])];
              recorded := Some(queue[0]);
            }
        }
      }
    }

    /** `finish`: what was recorded and not asked for, and the exit status. Of a recording of
        `trace` after `asks` that is what counting says. */
    method Finish(code: nat, strict: bool) returns (unused: set<string>, exit: nat)
      ensures forall q :: q in unused <==>
                q in answers && match answers[q]
                                case Fixed(_, asked) => !asked
                                case Ordered(queue) => queue != []
      ensures forall trace, asks :: StoreAfter(answers, trace, asks) ==>
                forall q :: q in unused <==> StillUnused(trace, q, asks[q])
      ensures exit == if strict && unused != {} then 98 else code
    {
      unused := {};
      var open := answers.Keys;
      while open != {}
        invariant open <= answers.Keys
        invariant unused == set q | q in answers && q !in open && IsUnused(answers[q])
        decreases |open|
      {
        var question :| question in open;
        match answers[question] {
          case Fixed(_, asked) =>
            if !asked {
              unused := unused + {question};
            }
          case Ordered(queue) =>
            if queue != [] {
              unused := unused + {question};
            }
        }
        open := open - {question};
      }
      forall trace, asks | StoreAfter(answers, trace, asks)
        ensures forall q :: q in unused <==> StillUnused(trace, q, asks[q])
      {
        UnusedIsWhatIsLeft(answers, trace, asks);
      }
      exit := if strict && unused != {} then UNCONSUMED_EXIT else code;
    }
  }

  /** What is collected from the reads so far: the questions in order, and their answers. */
  ghost predicate IsCollected(order: seq<Read>, answers: map<string, seq<Json>>, trace: seq<Read>) {
    && order == FirstReads(trace)
    && (forall q :: q in answers <==> AnswersTo(trace, q) != [])
    && (forall q :: q in answers ==> answers[q] == AnswersTo(trace, q))
  }

  lemma CollectOne(order: seq<Read>, answers: map<string, seq<Json>>, trace: seq<Read>, read: Read)
    requires IsCollected(order, answers, trace)
    ensures var q := QuestionOf(read);
            if q in answers then IsCollected(order, answers[q := answers[q] + [read.response]], trace + [read])
            else IsCollected(order + [read], answers[q := [read.response]], trace + [read])
  {
    hide QuestionOf;
    assert (trace + [read])[..|trace|] == trace;
  }

  lemma NothingCollected()
    ensures IsCollected([], map[], [])
  {
  }

  /** The first half of `group_inputs`. */
  method CollectAnswers(trace: seq<Read>) returns (order: seq<Read>, answers: map<string, seq<Json>>)
    ensures IsCollected(order, answers, trace)
  {
    hide IsCollected, QuestionOf;
    order := [];
    answers := map[];
    NothingCollected();
    var n := 0;
    while n < |trace|
      invariant 0 <= n <= |trace|
      invariant IsCollected(order, answers, trace[..n])
    {
      var read := trace[n];
      CollectOne(order, answers, trace[..n], read);
      assert trace[..n + 1] == trace[..n] + [read];
      var identity := QuestionOf(read);
      if identity !in answers {
        order := order + [read];
        answers := answers[identity := [read.response]];
      } else {
        answers := answers[identity := answers[identity] + [read.response]];
      }
      n := n + 1;
    }
    assert trace[..|trace|] == trace;
  }

  /** `group_inputs`: one entry per question, in order of first use. */
  method GroupInputs(trace: seq<Read>) returns (grouped: seq<Entry>)
    ensures grouped == Grouped(trace)
  {
    hide QuestionOf, Uniform, AnswersTo;
    var order, answers := CollectAnswers(trace);
    FirstReadsAreAsked(trace);
    grouped := [];
    var k := 0;
    while k < |order|
      invariant 0 <= k <= |order|
      invariant grouped == Grouped(trace)[..k]
    {
      var read := order[k];
      assert read in order;
      var values := answers[QuestionOf(read)];
      var payload := if Uniform(values) then Single(values[0]) else Many(values);
      grouped := grouped + [Entry(read.kind, read.key, payload)];
      k := k + 1;
    }
  }

  lemma {:induction false} FirstReadsAreAsked(trace: seq<Read>)
    ensures forall read :: read in FirstReads(trace) ==> AnswersTo(trace, QuestionOf(read)) != []
    decreases |trace|
  {
    if trace != [] {
      FirstReadsAreAsked(trace[..|trace| - 1]);
    }
  }

  function Grouped(trace: seq<Read>): (entries: seq<Entry>) {
    FirstReadsAreAsked(trace);
    var order := FirstReads(trace);
    seq(|order|, k requires 0 <= k < |order| =>
      assert order[k] in order;
      Entry(order[k].kind, order[k].key, PayloadOf(AnswersTo(trace, QuestionOf(order[k])))))
  }

  // ---- what a recording answers -----------------------------------------------------------------

  /** The answer to the ask of `question` that comes after `before` asks of it. */
  function Served(trace: seq<Read>, question: string, before: nat): Option<Json> {
    var values := AnswersTo(trace, question);
    if values == [] then None
    else if Uniform(values) then Some(values[0])
    else if before < |values| then Some(values[before])
    else None
  }

  predicate StillUnused(trace: seq<Read>, question: string, before: nat) {
    var values := AnswersTo(trace, question);
    values != [] && if Uniform(values) then before == 0 else before < |values|
  }

  /** The answers left once the questions in `asks` were asked. */
  ghost predicate StoreAfter(store: map<string, Answer>, trace: seq<Read>, asks: multiset<string>) {
    forall q ::
      var values := AnswersTo(trace, q);
      && (q in store <==> values != [])
      && (q in store ==>
            if Uniform(values) then store[q] == Fixed(values[0], asks[q] > 0)
            else asks[q] <= |values| && store[q] == Ordered(values[asks[q]..]))
  }

  lemma {:induction false} FirstReadsListQuestions(trace: seq<Read>)
    ensures forall i, k | 0 <= i < k < |FirstReads(trace)| ::
              QuestionOf(FirstReads(trace)[i]) != QuestionOf(FirstReads(trace)[k])
    ensures forall q | AnswersTo(trace, q) != [] ::
              exists i | 0 <= i < |FirstReads(trace)| :: QuestionOf(FirstReads(trace)[i]) == q
    decreases |trace|
  {
    hide QuestionOf;
    if trace != [] {
      var init, last := trace[..|trace| - 1], trace[|trace| - 1];
      FirstReadsListQuestions(init);
      FirstReadsAreAsked(init);
      var first, more := FirstReads(init), FirstReads(trace);
      assert forall i | 0 <= i < |first| :: more[i] == first[i] && first[i] in first;
      forall q | AnswersTo(trace, q) != []
        ensures exists i | 0 <= i < |more| :: QuestionOf(more[i]) == q
      {
        if AnswersTo(init, q) != [] {
          var i :| 0 <= i < |first| && QuestionOf(first[i]) == q;
          assert QuestionOf(more[i]) == q;
        } else {
          assert QuestionOf(more[|more| - 1]) == q;
        }
      }
    }
  }

  function FromPayload(payload: Payload): Answer {
    match payload
    case Single(response) => Fixed(response, false)
    case Many(responses) => Ordered(responses)
  }

  lemma {:induction false} LoadOfDistinct(entries: seq<Entry>)
    requires forall i, k | 0 <= i < k < |entries| :: EntryQuestion(entries[i]) != EntryQuestion(entries[k])
    ensures forall q :: q in Loaded(entries) <==> exists i | 0 <= i < |entries| :: EntryQuestion(entries[i]) == q
    ensures forall i | 0 <= i < |entries| ::
              EntryQuestion(entries[i]) in Loaded(entries)
              && Loaded(entries)[EntryQuestion(entries[i])] == FromPayload(entries[i].payload)
    decreases |entries|
  {
    hide EntryQuestion;
    if entries != [] {
      var init := entries[..|entries| - 1];
      LoadOfDistinct(init);
      assert forall i | 0 <= i < |init| :: entries[i] == init[i];
      forall q ensures q in Loaded(entries) <==> exists i | 0 <= i < |entries| :: EntryQuestion(entries[i]) == q {
        if q in Loaded(init) {
          var i :| 0 <= i < |init| && EntryQuestion(init[i]) == q;
          assert EntryQuestion(entries[i]) == q;
        }
      }
    }
  }

  lemma GroupedQuestions(trace: seq<Read>)
    ensures var entries := Grouped(trace);
            && (forall i, k | 0 <= i < k < |entries| :: EntryQuestion(entries[i]) != EntryQuestion(entries[k]))
            && (forall i | 0 <= i < |entries| ::
                  var values := AnswersTo(trace, EntryQuestion(entries[i]));
                  values != [] && entries[i].payload == PayloadOf(values))
            && (forall q | AnswersTo(trace, q) != [] :: exists i | 0 <= i < |entries| :: EntryQuestion(entries[i]) == q)
  {
    hide QuestionText, AnswersTo, PayloadOf, FirstReads;
    var entries, order := Grouped(trace), FirstReads(trace);
    FirstReadsAreAsked(trace);
    FirstReadsListQuestions(trace);
    assert forall i | 0 <= i < |order| :: order[i] in order && EntryQuestion(entries[i]) == QuestionOf(order[i]);
    forall q | AnswersTo(trace, q) != [] ensures exists i | 0 <= i < |entries| :: EntryQuestion(entries[i]) == q {
      var i :| 0 <= i < |order| && QuestionOf(order[i]) == q;
      assert EntryQuestion(entries[i]) == q;
    }
  }

  /** A loaded recording has every question's answers, and none has been asked for. */
  lemma LoadOfGrouped(trace: seq<Read>)
    ensures StoreAfter(Loaded(Grouped(trace)), trace, multiset{})
  {
    hide EntryQuestion, AnswersTo, Grouped, Loaded, Uniform;
    var entries := Grouped(trace);
    GroupedQuestions(trace);
    LoadOfDistinct(entries);
    var store := Loaded(entries);
    forall q | q in store
      ensures var values := AnswersTo(trace, q);
              values != [] && store[q] == if Uniform(values) then Fixed(values[0], false) else Ordered(values)
    {
      var i :| 0 <= i < |entries| && EntryQuestion(entries[i]) == q;
    }
    forall q ensures var values := AnswersTo(trace, q); values[0..] == values { }
  }

  /** Asking serves the next answer, and leaves what counting says it leaves. */
  lemma AskServes(store: map<string, Answer>, trace: seq<Read>, asks: multiset<string>, question: string)
    requires StoreAfter(store, trace, asks)
    ensures Asked(store, question).0 == Served(trace, question, asks[question])
    ensures Asked(store, question).0.Some? ==>
              StoreAfter(Asked(store, question).1, trace, asks + multiset{question})
  {
    hide AnswersTo, Uniform;
  }

  lemma UnusedIsWhatIsLeft(store: map<string, Answer>, trace: seq<Read>, asks: multiset<string>)
    requires StoreAfter(store, trace, asks)
    ensures forall q :: q in Unused(store) <==> StillUnused(trace, q, asks[q])
  {
    hide AnswersTo, Uniform;
  }

  // ---- programs -----------------------------------------------------------------------------------

  datatype Move<R> = Ask(kind: string, key: Json) | Done(result: R)

  /** A program asks questions, each depending on the answers so far, and ends with a result. */
  type Program<!R> = seq<Json> -> Move<R>

  /** Answers are decoded field by field, so the order of their fields is not seen. */
  ghost predicate ReadsByName<R>(program: Program<R>) {
    forall taken, others |
      |taken| == |others| && forall i | 0 <= i < |taken| ::
        WellFormed(taken[i]) && WellFormed(others[i]) && Same(taken[i], others[i]) ::
      program(taken) == program(others)
  }

  function Responses(trace: seq<Read>): (taken: seq<Json>)
    ensures |taken| == |trace|
  {
    seq(|trace|, i requires 0 <= i < |trace| => trace[i].response)
  }

  /** The program made this recording, whatever its environment was. */
  ghost predicate Recorded<R>(program: Program<R>, trace: seq<Read>) {
    forall i | 0 <= i < |trace| ::
      && program(Responses(trace[..i])) == Ask(trace[i].kind, trace[i].key)
      && WellFormed(trace[i].response)
  }

  datatype Progress<R> =
    | Running(taken: seq<Json>, asks: seq<string>, store: map<string, Answer>)
    | Unrecorded(asks: seq<string>, question: string)
    | Finished(result: R, asks: seq<string>, remaining: map<string, Answer>)

  /** A program run for `steps` moves on recorded answers. */
  function Replayed<R>(program: Program<R>, store: map<string, Answer>, steps: nat): Progress<R> {
    if steps == 0 then Running([], [], store)
    else
      match Replayed(program, store, steps - 1)
      case Running(taken, asks, left) =>
        (match program(taken)
         case Done(result) => Finished(result, asks, left)
         case Ask(kind, key) =>
           var question := QuestionText(kind, key);
           var (recorded, rest) := Asked(left, question);
           if recorded.None? then Unrecorded(asks, question)
           else Running(taken + [recorded.value], asks + [question], rest))
      case ended => ended
  }

  /** The answers taken are those recorded for these asks, each for its number among the asks of
      the same question. */
  predicate ServesInOrder(trace: seq<Read>, asks: seq<string>, taken: seq<Json>) {
    |taken| == |asks| && forall i | 0 <= i < |asks| ::
      Served(trace, asks[i], multiset(asks[..i])[asks[i]]) == Some(taken[i])
  }

  lemma ServesOneMore(trace: seq<Read>, asks: seq<string>, taken: seq<Json>, question: string, value: Json)
    requires ServesInOrder(trace, asks, taken)
    requires Served(trace, question, multiset(asks)[question]) == Some(value)
    ensures ServesInOrder(trace, asks + [question], taken + [value])
    ensures multiset(asks + [question]) == multiset(asks) + multiset{question}
  {
    hide Served;
    var more := asks + [question];
    assert more[..|asks|] == asks;
    assert forall i | 0 <= i < |asks| :: more[..i] == asks[..i];
  }

  /** Whatever program runs on a recording, changed or not: each answer it gets is the one the
      recorded run got for that ask of that question, and it is refused only where the recording
      has none. */
  lemma {:induction false} ReplayServesInOrder<R>(program: Program<R>, trace: seq<Read>, steps: nat)
    ensures var progress := Replayed(program, Loaded(Grouped(trace)), steps);
            && (progress.Running? ==>
                  && |progress.taken| == |progress.asks| == steps
                  && StoreAfter(progress.store, trace, multiset(progress.asks))
                  && ServesInOrder(trace, progress.asks, progress.taken))
            && (progress.Unrecorded? ==>
                  Served(trace, progress.question, multiset(progress.asks)[progress.question]) == None)
            && (progress.Finished? ==>
                  StoreAfter(progress.remaining, trace, multiset(progress.asks)))
    decreases steps
  {
    hide Served, StoreAfter, Asked, QuestionText, Grouped, ServesInOrder, Loaded;
    if steps == 0 {
      LoadOfGrouped(trace);
      NothingServed(trace);
    } else {
      ReplayServesInOrder(program, trace, steps - 1);
      var earlier := Replayed(program, Loaded(Grouped(trace)), steps - 1);
      if earlier.Running? && program(earlier.taken).Ask? {
        var move := program(earlier.taken);
        var question := QuestionText(move.kind, move.key);
        AskServes(earlier.store, trace, multiset(earlier.asks), question);
        var recorded := Asked(earlier.store, question).0;
        if recorded.Some? {
          ServesOneMore(trace, earlier.asks, earlier.taken, question, recorded.value);
        }
      }
    }
  }

  lemma NothingServed(trace: seq<Read>)
    ensures ServesInOrder(trace, [], [])
  {
  }

  function Questions(trace: seq<Read>): (asks: seq<string>)
    ensures |asks| == |trace|
  {
    seq(|trace|, i requires 0 <= i < |trace| => QuestionOf(trace[i]))
  }

  lemma {:induction false} AnswersAreCounted(trace: seq<Read>, question: string)
    ensures |AnswersTo(trace, question)| == multiset(Questions(trace))[question]
    decreases |trace|
  {
    if trace != [] {
      var init := trace[..|trace| - 1];
      AnswersAreCounted(init, question);
      assert Questions(trace) == Questions(init) + [QuestionOf(trace[|trace| - 1])];
    }
  }

  lemma {:induction false} AnswersOfPrefix(trace: seq<Read>, n: nat, question: string)
    requires n <= |trace|
    ensures AnswersTo(trace[..n], question) <= AnswersTo(trace, question)
    decreases |trace| - n
  {
    if n < |trace| {
      assert trace[..n + 1][..n] == trace[..n];
      AnswersOfPrefix(trace, n + 1, question);
    } else {
      assert trace[..n] == trace;
    }
  }

  lemma {:induction false} AnswersAreResponses(trace: seq<Read>, question: string)
    ensures forall value :: value in AnswersTo(trace, question) ==>
              exists read :: read in trace && read.response == value
    decreases |trace|
  {
    if trace != [] {
      AnswersAreResponses(trace[..|trace| - 1], question);
    }
  }

  /** The recorded run's own asks are served its own answers. */
  lemma OwnAnswerIsServed(trace: seq<Read>, i: nat)
    requires i < |trace|
    requires forall read :: read in trace ==> WellFormed(read.response)
    ensures var served := Served(trace, QuestionOf(trace[i]), multiset(Questions(trace[..i]))[QuestionOf(trace[i])]);
            served.Some? && WellFormed(served.value) && Same(served.value, trace[i].response)
  {
    hide QuestionOf, Text, WellFormed, Same;
    var question := QuestionOf(trace[i]);
    AnswersAreCounted(trace[..i], question);
    AnswersOfPrefix(trace, i + 1, question);
    assert trace[..i + 1][..i] == trace[..i];
    assert AnswersTo(trace[..i + 1], question) == AnswersTo(trace[..i], question) + [trace[i].response];
    var n := |AnswersTo(trace[..i], question)|;
    var values := AnswersTo(trace, question);
    assert values[n] == trace[i].response && values[0] in values;
    AnswersAreResponses(trace, question);
    SameOfText(values[0], if Uniform(values) then values[n] else values[0]);
    SameOfText(values[n], values[n]);
  }

  /** The answers taken are those of the trace so far, up to the order of fields. */
  predicate Follows(taken: seq<Json>, trace: seq<Read>) {
    |taken| <= |trace| && forall i | 0 <= i < |taken| ::
      WellFormed(taken[i]) && Same(taken[i], trace[i].response)
  }

  lemma SameNextMove<R>(program: Program<R>, trace: seq<Read>, taken: seq<Json>)
    requires ReadsByName(program) && Recorded(program, trace) && Follows(taken, trace)
    ensures program(taken) == program(Responses(trace[..|taken|]))
    ensures |taken| < |trace| ==> program(taken) == Ask(trace[|taken|].kind, trace[|taken|].key)
  {
    hide WellFormed, Same;
  }

  lemma NothingTakenFollows(trace: seq<Read>)
    ensures Follows([], trace)
  {
  }

  /** One more move of a replay whose question is answered. */
  lemma ReplayMoves<R>(program: Program<R>, store: map<string, Answer>, steps: nat)
    requires Replayed(program, store, steps).Running?
    requires program(Replayed(program, store, steps).taken).Ask?
    ensures var earlier := Replayed(program, store, steps);
            var move := program(earlier.taken);
            var question := QuestionText(move.kind, move.key);
            var served := Asked(earlier.store, question);
            served.0.Some? ==>
              Replayed(program, store, steps + 1)
              == Running(earlier.taken + [served.0.value], earlier.asks + [question], served.1)
  {
    hide Asked, QuestionText;
  }

  lemma FollowsOn<R>(program: Program<R>, trace: seq<Read>, taken: seq<Json>)
    requires Recorded(program, trace) && Follows(taken, trace) && |taken| < |trace|
    ensures var question := QuestionOf(trace[|taken|]);
            var served := Served(trace, question, multiset(Questions(trace[..|taken|]))[question]);
            served.Some? && Follows(taken + [served.value], trace)
  {
    hide WellFormed, Same, Served, QuestionOf;
    forall read | read in trace ensures WellFormed(read.response) {
      var i :| 0 <= i < |trace| && trace[i] == read;
    }
    OwnAnswerIsServed(trace, |taken|);
  }

  lemma {:induction false} ReplayFollows<R>(program: Program<R>, trace: seq<Read>, steps: nat)
    requires ReadsByName(program) && Recorded(program, trace)
    requires steps <= |trace|
    ensures var progress := Replayed(program, Loaded(Grouped(trace)), steps);
            && progress.Running?
            && |progress.taken| == steps
            && progress.asks == Questions(trace[..steps])
            && StoreAfter(progress.store, trace, multiset(progress.asks))
            && Follows(progress.taken, trace)
    decreases steps
  {
    hide Served, StoreAfter, Asked, Grouped, ReadsByName, Recorded, Follows, QuestionText;
    var store := Loaded(Grouped(trace));
    if steps == 0 {
      ReplayServesInOrder(program, trace, 0);
      NothingTakenFollows(trace);
    } else {
      var i := steps - 1;
      ReplayFollows(program, trace, i);
      var earlier := Replayed(program, store, i);
      SameNextMove(program, trace, earlier.taken);
      AskServes(earlier.store, trace, multiset(earlier.asks), QuestionOf(trace[i]));
      FollowsOn(program, trace, earlier.taken);
      ReplayMoves(program, store, i);
      assert Questions(trace[..steps]) == Questions(trace[..i]) + [QuestionOf(trace[i])];
      hide Replayed, Questions;
    }
  }

  /** A replay of the program that made the recording gets the same answers in the same order,
      is never refused, ends with the same result, and leaves no answer unused. */
  lemma ReplayRepeatsTheRun<R>(program: Program<R>, trace: seq<Read>, result: R)
    requires ReadsByName(program) && Recorded(program, trace)
    requires program(Responses(trace)) == Done(result)
    ensures var progress := Replayed(program, Loaded(Grouped(trace)), |trace| + 1);
            progress.Finished? && progress.result == result && Unused(progress.remaining) == {}
    ensures var before := Replayed(program, Loaded(Grouped(trace)), |trace|);
            before.Running? && |before.taken| == |trace| && Follows(before.taken, trace)
  {
    hide StoreAfter, Asked, QuestionText, Grouped, Text, Unused, Same, WellFormed;
    ReplayFollows(program, trace, |trace|);
    var before := Replayed(program, Loaded(Grouped(trace)), |trace|);
    SameNextMove(program, trace, before.taken);
    assert trace[..|trace|] == trace;
    UnusedIsWhatIsLeft(before.store, trace, multiset(before.asks));
    forall q ensures q !in Unused(before.store) {
      AnswersAreCounted(trace, q);
    }
  }

  // ---- a program that runs commands ---------------------------------------------------------------

  /** A program that decodes every answer as a command's result. */
  function DecodingCommands<R>(next: seq<Option<CommandResult>> -> Move<R>): Program<R> {
    taken => next(seq(|taken|, i requires 0 <= i < |taken| => CommandFrom(taken[i])))
  }

  lemma DecodingReadsByName<R>(next: seq<Option<CommandResult>> -> Move<R>)
    ensures ReadsByName(DecodingCommands(next))
  {
    hide WellFormed, Same, CommandFrom;
    forall taken: seq<Json>, others: seq<Json> |
      |taken| == |others| && forall i | 0 <= i < |taken| ::
        WellFormed(taken[i]) && WellFormed(others[i]) && Same(taken[i], others[i])
      ensures DecodingCommands(next)(taken) == DecodingCommands(next)(others)
    {
      var n := |taken|;
      forall i | 0 <= i < n ensures CommandFrom(taken[i]) == CommandFrom(others[i]) {
        CommandFromIsByName(taken[i], others[i]);
      }
      assert seq(n, i requires 0 <= i < n => CommandFrom(taken[i]))
          == seq(n, i requires 0 <= i < n => CommandFrom(others[i]));
    }
  }
}
