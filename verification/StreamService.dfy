/** One streamed question from end to end: admission, generation, the closing transaction and the frames
    the client reads. */
module StreamService {
  import opened Wrappers
  import opened Tables
  import opened Transitions
  import opened Invariants
  import opened Evolution
  import opened Preservation
  import opened Admissions
  import opened Closings
  import opened RagService
  import Runs
  import Protocol
  import opened EventStream

  // ----- what a client reads

  /** The events the frames carry. */
  function FrameEvents<A>(frames: seq<Frame<A>>): seq<Event> {
    if frames == [] then []
    else
      var last := |frames| - 1;
      if frames[last].Framed? then FrameEvents(frames[..last]) + [frames[last].event] else FrameEvents(frames[..last])
  }

  lemma {:induction false} EventsOfNumbered<A>(frames: seq<Frame<A>>)
    ensures FrameEvents(Numbered(frames)) == FrameEvents(frames)
  {
    if frames != [] {
      var last := |frames| - 1;
      EventsOfNumbered(frames[..last]);
      var front := Numbered(frames[..last]);
      assert (front + [frames[last]])[..|front|] == front;
    }
  }

  lemma {:induction false} EventsOfOpening<A>(events: seq<Event>)
    ensures FrameEvents(Opening<A>(events)) == events
  {
    hide FrameEvents, Opening;
    if events == [] {
      EmptyOpening<A>();
    } else {
      var last := |events| - 1;
      EventsOfOpening<A>(events[..last]);
      OpeningNext<A>(events);
      EventsOfNext(Opening<A>(events[..last]), Frame<A>.Framed(events[last], last + 2));
      assert events == events[..last] + [events[last]];
    }
  }

  lemma EmptyOpening<A>()
    ensures FrameEvents(Opening<A>([])) == []
  {
    var opening := Opening<A>([]);
    assert opening[..0] == [] && FrameEvents(opening[..0]) == [];
  }

  lemma OpeningNext<A>(events: seq<Event>)
    requires events != []
    ensures var last := |events| - 1;
            Opening<A>(events) == Opening<A>(events[..last]) + [Frame<A>.Framed(events[last], last + 2)]
  {
  }

  lemma EventsOfNext<A>(frames: seq<Frame<A>>, frame: Frame<A>)
    ensures FrameEvents(frames + [frame])
         == if frame.Framed? then FrameEvents(frames) + [frame.event] else FrameEvents(frames)
  {
    assert (frames + [frame])[..|frames|] == frames;
  }

  /** Frames built as scripted carry exactly the events shown. */
  lemma EventsOfScript<A>(frames: seq<Frame<A>>, events: seq<Event>, outcome: Outcome<A>)
    requires Numbered(frames) == Script(events, outcome)
    ensures FrameEvents(frames) == Shown(events, outcome)
  {
    EventsOfNumbered(frames);
    var opening := Opening<A>(Shown(events, outcome));
    EventsOfOpening<A>(Shown(events, outcome));
    if outcome.Answered? {
      var last := Complete(outcome.answer, |opening| + 1);
      assert (opening + [last])[..|opening|] == opening;
    }
  }

  lemma {:induction false} CitationsHaveNoText(events: seq<Event>)
    requires forall i :: 0 <= i < |events| ==> events[i].CitationEvent?
    ensures DeltaText(events) == ""
  {
    if events != [] { CitationsHaveNoText(events[..|events| - 1]); }
  }

  /** A replay shows the stored citations, one event each and in order, and exactly the stored answer. */
  lemma ReplayShowsStored<A>(outcome: Outcome<A>)
    requires outcome.Answered?
    ensures Laid(Shown([], outcome), outcome.citations) && DeltaText(Shown([], outcome)) == outcome.text
  {
    var shown := Shown([], outcome);
    var front := shown[..|outcome.citations|];
    CitationsHaveNoText(front);
    DeltaTextAppend(front, Delta(outcome.text));
    assert shown == front + [Delta(outcome.text)];
    assert "" + outcome.text == outcome.text;
  }

  function Ticks(events: seq<Event>): (ticks: seq<Tick>)
    ensures Items(ticks) == events
  {
    if events == [] then []
    else
      var last := |events| - 1;
      var ticks := Ticks(events[..last]) + [Item(events[last])];
      assert ticks[..|ticks| - 1] == Ticks(events[..last]);
      ticks
  }

  lemma OnlyLastCompletes(frames: seq<Frame<AnswerOut>>, ticks: seq<Tick>, outcome: Outcome<AnswerOut>)
    requires Numbered(frames) == Script(Items(ticks), outcome) && frames != []
    requires outcome.Answered? ==> frames[|frames| - 1] == Complete(outcome.answer, |Numbered(frames)|)
    ensures forall i :: 0 <= i < |frames| && frames[i].Complete? ==> frames[i] == frames[|frames| - 1]
  {
    StreamIsWellFormed(frames, ticks, outcome);
    NumberedKeeps(frames);
    var n := Numbered(frames);
    forall i | 0 <= i < |frames| && frames[i].Complete? ensures frames[i] == frames[|frames| - 1] {
      assert frames[i] in n;
      var k :| 0 <= k < |n| && n[k] == frames[i];
      assert k == |n| - 1 && outcome.Answered? && n[k] == Complete(outcome.answer, |n|);
    }
  }

  /** Frames the outcome of a question. */
  method Deliver(events: seq<Event>, outcome: Outcome<AnswerOut>) returns (frames: seq<Frame<AnswerOut>>)
    ensures frames != [] && FrameEvents(frames) == Shown(events, outcome)
    ensures forall i :: 0 <= i < |frames| && frames[i].Complete? ==> frames[i] == frames[|frames| - 1]
    ensures var last := frames[|frames| - 1];
            if outcome.Answered? then last.Complete? && last.answer == outcome.answer else last.Failure?
  {
    var ticks := Ticks(events);
    frames := EventStream.Frames(ticks, outcome);
    EventsOfScript(frames, events, outcome);
    OnlyLastCompletes(frames, ticks, outcome);
  }

  /** Whether a retry of the key would be given this answer. */
  ghost predicate Replays(s: State, c: nat, key: string, question: string, answer: AnswerOut) {
    Lookup(s, c, key, question) == Option.Some(Replayed(answer))
  }

  /** What the client has assembled by the time it reads `complete`. */
  ghost predicate TextAgrees(d: Citations.Digits, citations: seq<string>, chunks: seq<string>, text: string,
                             answer: AnswerOut) {
    var allowed := set id | id in citations;
    && (citations == [] ==> text == answer.answer)
    && (!answer.grounded ==> EndsWith(text, answer.answer))
    && (answer.grounded && CitationStream.LongTokensKnown(d, allowed, CitationStream.Concat(chunks)) ==>
          text == answer.answer)
  }

  lemma DeliveredAgrees(d: Citations.Digits, citations: seq<string>, chunks: seq<string>, g: Generated,
                        answer: AnswerOut)
    requires g == Stored(d, citations, CitationStream.Concat(chunks))
    requires answer.answer == g.answer && answer.grounded == g.grounded
    ensures TextAgrees(d, citations, chunks, Delivered(d, citations, chunks), answer)
  {
    hide Stored, Delivered, CitationStream.LongTokensKnown, CitationStream.Concat;
    ClientSawWhatWasStored(d, citations, CitationStream.Concat(chunks));
  }

  lemma FinishReplays(s: State, cfg: Settings, r: nat, res: Result, t: Instant)
    requires Inv(s, cfg) && Later(s.now, t) && CanFinish(s, r)
    ensures var row := s.requests[r];
            Replays(Finish(s, cfg, r, res, t), row.conversation, row.key, row.question, FinishedAnswer(s, r, res))
  {
    var s' := Finish(s, cfg, r, res, t);
    FinishKeeps(s, cfg, r, res, t);
    hide Finish, Inv, Extends;
    TickExtends(s', s'.now);
    FinishedIsReplayed(s, s', cfg, r, res, t);
  }

  // ----- one question

  /** Closes an admitted question and frames what came of it. */
  method Conclude(db: Database, r: nat, events: seq<Event>, res: Result, t: Instant)
    returns (frames: seq<Frame<AnswerOut>>)
    requires Inv(db.Snapshot(), db.cfg) && Later(db.now, t) && r < |db.requests| && events != []
    modifies db
    ensures Inv(db.Snapshot(), db.cfg)
    ensures frames != [] && (frames[|frames| - 1].Complete? || frames[|frames| - 1].Failure?)
    ensures forall i :: 0 <= i < |frames| && frames[i].Complete? ==> frames[i] == frames[|frames| - 1]
    ensures FrameEvents(frames) == events
    ensures frames[|frames| - 1].Complete? <==> Closable(old(db.Snapshot()), r)
    ensures FinishRule(old(db.Snapshot()), db.Snapshot(), db.cfg, r, res, t)
    ensures frames[|frames| - 1].Complete? ==>
              var row, answer := old(db.requests[r]), frames[|frames| - 1].answer;
              && Replays(db.Snapshot(), row.conversation, row.key, row.question, answer)
              && answer == AnswerFor(old(db.Snapshot()), r, res)
  {
    hide Inv, Finish, Lookup, FrameEvents, FinishRule, Closable;
    ghost var s := db.Snapshot();
    FinishFollowsRule(s, db.cfg, r, res, t);
    if CanFinish(s, r) { FinishReplays(s, db.cfg, r, res, t); }
    var out := db.FinishRequest(r, res, t);
    var outcome :=
      if out.Finished? then Outcome.Answered(out.answer, out.answer.answer, out.answer.citations) else Raised;
    frames := Deliver(events, outcome);
  }

  /** What other sessions may have done to the tables by the time a generation ends, given the tables after
      the admission: any steps of theirs, up to some time before `t`. */
  ghost predicate AnySteps(cfg: Settings, others: State -> State, t: Instant) {
    forall s :: Inv(s, cfg) && Later(s.now, t) ==> Runs.Reaches(cfg, s, others(s)) && Later(others(s).now, t)
  }

  /** Nobody else doing anything is one of the possibilities. */
  lemma OthersMayRest(cfg: Settings, t: Instant)
    ensures AnySteps(cfg, s => s, t)
  {
    forall s | Inv(s, cfg) && Later(s.now, t) ensures Runs.Reaches(cfg, s, s) {
      var run := Runs.Run([Protocol.World(s, map[])], [], []);
      assert Runs.IsStretch(run, cfg);
    }
  }

  /** Other sessions run; an admitted request keeps its identity. */
  method Interlude(db: Database, r: nat, others: State -> State, t: Instant)
    requires Inv(db.Snapshot(), db.cfg) && Later(db.now, t) && r < |db.requests| && AnySteps(db.cfg, others, t)
    modifies db
    ensures Inv(db.Snapshot(), db.cfg) && Later(db.now, t) && r < |db.requests|
    ensures db.Snapshot() == others(old(db.Snapshot())) && SameIdentity(old(db.requests[r]), db.requests[r])
  {
    hide Inv, Runs.Reaches;
    ghost var s := db.Snapshot();
    Runs.ReachedIsSafe(db.cfg, s, others(s));
    assert RowStep(s.requests[r], others(s).requests[r]);
    var now := State(db.conversations, db.requests, db.responses, db.messages, db.buckets, db.now);
    db.Observe(others(now));
  }

  /** The answer is the one the raw text of the model leads to. */
  ghost predicate AnswersRaw(d: Citations.Digits, citations: seq<string>, raw: string, answer: AnswerOut) {
    GroundedByCitations(d, citations, raw, Generated(answer.answer, answer.grounded, answer.citations))
  }

  /** The generation of an admitted question: the gateway delivers everything or fails after some events,
      while other sessions do as they like. */
  method Produce(db: Database, d: Citations.Digits, r: nat, citations: seq<string>, chunks: seq<string>, model: string,
                 failure: Option<(Code, nat)>, others: State -> State, t: Instant)
    returns (frames: seq<Frame<AnswerOut>>, ghost own: seq<Event>)
    requires Inv(db.Snapshot(), db.cfg) && r < |db.requests| && Later(db.now, t) && AnySteps(db.cfg, others, t)
    modifies db
    ensures Inv(db.Snapshot(), db.cfg)
    ensures frames != [] && (frames[|frames| - 1].Complete? || frames[|frames| - 1].Failure?)
    ensures forall i :: 0 <= i < |frames| && frames[i].Complete? ==> frames[i] == frames[|frames| - 1]
    ensures FrameEvents(frames) == own
    ensures frames[|frames| - 1].Complete? <==> failure.None? && Closable(others(old(db.Snapshot())), r)
    ensures failure.Some? ==>
              FailRule(others(old(db.Snapshot())), db.Snapshot(), r, failure.value.0, t)
    ensures frames[|frames| - 1].Complete? ==>
              var row, answer := old(db.requests[r]), frames[|frames| - 1].answer;
              && Replays(db.Snapshot(), row.conversation, row.key, row.question, answer)
              && own != [] && Laid(own, citations)
              && TextAgrees(d, citations, chunks, DeltaText(own), answer)
              && AnswersRaw(d, citations, CitationStream.Concat(chunks), answer)
  {
    hide Inv, Finish, Fail, FrameEvents, DeltaText, Delivered, Laid, TextAgrees, Replays, AnySteps, Stored;
    hide GroundedByCitations, Closable, FinishRule, FailRule;
    var events, generated := Generate(d, citations, chunks);
    var used := generated.used;
    var res := Result(generated.answer, generated.grounded, used, if citations == [] then None else Some(model), None);
    own := events;
    Interlude(db, r, others, t);
    if failure.Some? {
      var (code, after) := failure.value;
      db.FailRequest(r, code, t);
      own := if after < |events| then events[..after] else events;
      frames := Deliver(if after < |events| then events[..after] else events, Raised);
      return;
    }
    frames := Conclude(db, r, events, res, t);
    if frames[|frames| - 1].Complete? {
      DeliveredAgrees(d, citations, chunks, generated, frames[|frames| - 1].answer);
    }
  }

  /** `stream_message` for one request, whatever other sessions do between its admission and its closing
      transaction. `mid` are the tables after the admission, whose outcome is `out`. A `complete` frame is sent
      exactly for a replay, and for an admitted question whose generation did not fail and which is still open
      when it ends. It is the last frame, the answer in it is already stored and is the one the model's text
      leads to, and a retry of the same key would replay it. The question had no events of its own exactly if
      it is itself a replay: then the frames carry the stored citations and the stored answer. Otherwise
      they carry the retrieved citations and a text that agrees with the stored answer. */
  method StreamMessage(db: Database, d: Citations.Digits, c: nat, key: string, question: string, httpId: nat,
                       ip: string,
                       citations: seq<string>, chunks: seq<string>, model: string, failure: Option<(Code, nat)>,
                       others: State -> State, t1: Instant, t2: Instant)
    returns (frames: seq<Frame<AnswerOut>>, ghost own: seq<Event>, ghost mid: State, ghost out: Admission)
    requires Inv(db.Snapshot(), db.cfg) && Later(db.now, t1) && Later(t1, t2) && AnySteps(db.cfg, others, t2)
    modifies db
    ensures Inv(db.Snapshot(), db.cfg)
    ensures frames != [] && (frames[|frames| - 1].Complete? || frames[|frames| - 1].Failure?)
    ensures forall i :: 0 <= i < |frames| && frames[i].Complete? ==> frames[i] == frames[|frames| - 1]
    ensures AdmissionRule(old(db.Snapshot()), mid, db.cfg, c, key, question, httpId, ip, t1, out)
    ensures frames[|frames| - 1].Complete? <==>
              out.Replayed? || (out.Admitted? && failure.None? && Closable(others(mid), out.request))
    ensures !out.Admitted? ==> db.Snapshot() == mid
    ensures out.Admitted? && failure.Some? ==>
              FailRule(others(mid), db.Snapshot(), out.request, failure.value.0, t2)
    ensures !out.Replayed? ==> FrameEvents(frames) == own
    ensures frames[|frames| - 1].Complete? ==>
              var answer, shown := frames[|frames| - 1].answer, FrameEvents(frames);
              && (out.Replayed? ==> answer == out.answer)
              && (out.Admitted? ==> AnswersRaw(d, citations, CitationStream.Concat(chunks), answer))
              && Replays(db.Snapshot(), c, key, question, answer)
              && (own == [] <==> ByIdempotency(old(db.requests), c, key).Some?)
              && (if own == [] then Laid(shown, answer.citations) && DeltaText(shown) == answer.answer
                  else && shown == own && Laid(shown, citations)
                       && TextAgrees(d, citations, chunks, DeltaText(shown), answer))
  {
    hide Inv, Denial, FrameEvents, DeltaText, Laid, TextAgrees, AnySteps, AnswersRaw, AdmissionRule, Closable, FailRule;
    own := [];
    var outcome := db.Ask(c, key, question, httpId, ip, t1);
    out, mid := outcome, db.Snapshot();
    match outcome {
      case Replayed(answer) =>
        var stored := Outcome.Answered(answer, answer.answer, answer.citations);
        ReplayShowsStored(stored);
        frames := Deliver([], stored);
      case Admitted(r) =>
        frames, own := Produce(db, d, r, citations, chunks, model, failure, others, t2);
      case _ =>
        frames := Deliver([], Raised);
    }
  }
}
