/** The server-sent event stream of one question: what generation emits, how the consumer frames it, and
    how what the client saw relates to what was stored. Citations are identified by their ids. */
module EventStream {
  import opened Citations
  import opened CitationStream

  const INSUFFICIENT: string := "I could not find enough support in the published articles to answer this question."

  datatype Event = CitationEvent(id: string) | Delta(text: string)

  datatype Generated = Generated(answer: string, grounded: bool, used: seq<string>)

  /** `xs` is `ys` with some elements left out, in the same order. */
  predicate Subsequence<T(==)>(xs: seq<T>, ys: seq<T>) {
    xs == [] || (ys != [] && if xs[0] == ys[0] then Subsequence(xs[1..], ys[1..]) else Subsequence(xs, ys[1..]))
  }

  /** `validated_citations`: all of the supplied citations that the answer cites, in their order. */
  function Validated(d: Digits, answer: string, citations: seq<string>): (used: seq<string>)
    ensures forall id :: id in used <==> id in citations && id in CitedIds(d, answer)
    ensures Subsequence(used, citations)
    ensures forall id :: multiset(used)[id] == if id in CitedIds(d, answer) then multiset(citations)[id] else 0
  {
    assert citations != [] ==> citations == [citations[0]] + citations[1..];
    if citations == [] then []
    else
      var rest := Validated(d, answer, citations[1..]);
      if citations[0] in CitedIds(d, answer) then [citations[0]] + rest else rest
  }

  function DeltaText(events: seq<Event>): string {
    if events == [] then ""
    else
      var last := |events| - 1;
      DeltaText(events[..last]) + match events[last] case Delta(text) => text case CitationEvent(_) => ""
  }

  lemma DeltaTextAppend(events: seq<Event>, e: Event)
    ensures DeltaText(events + [e])
         == DeltaText(events) + match e case Delta(text) => text case CitationEvent(_) => ""
  {
    assert (events + [e])[..|events|] == events;
  }

  predicate OnlyCitations(events: seq<Event>, citations: seq<string>) {
    |events| == |citations| && forall i :: 0 <= i < |events| ==> events[i] == CitationEvent(citations[i])
  }

  /** Which answers stand: an answer is grounded exactly if, cleaned of unknown markers, it cites one of the
      supplied sources. Then it is the cleaned text with exactly the sources it cites, in the supplied order;
      otherwise it is the fixed refusal and cites nothing. */
  ghost predicate GroundedByCitations(d: Digits, citations: seq<string>, raw: string, g: Generated) {
    var clean := Sanitize(d, (set id | id in citations), raw);
    && (g.grounded <==> exists id :: id in citations && id in CitedIds(d, clean))
    && g.answer == (if g.grounded then clean else INSUFFICIENT)
    && (forall id :: id in g.used <==> id in citations && id in CitedIds(d, clean))
    && Subsequence(g.used, citations)
    && (forall id :: id in g.used ==> multiset(g.used)[id] == multiset(citations)[id])
  }

  lemma StoredIsGrounded(d: Digits, citations: seq<string>, raw: string)
    ensures GroundedByCitations(d, citations, raw, Stored(d, citations, raw))
  {
    hide Sanitize, CitedIds, Subsequence;
    var clean := Sanitize(d, (set id | id in citations), raw);
    var used := Validated(d, clean, citations);
    assert used != [] ==> used[0] in used;
    hide Validated;
    assert Subsequence(used, citations);
    assert used == [] ==> forall id :: id in citations ==> id !in CitedIds(d, clean);
    if citations == [] { assert used == []; }
  }

  /** What a streamed generation stores. */
  function Stored(d: Digits, citations: seq<string>, raw: string): Generated {
    var allowed := set id | id in citations;
    var clean := Sanitize(d, allowed, raw);
    var used := Validated(d, clean, citations);
    if citations != [] && used != [] then Generated(clean, true, used) else Generated(INSUFFICIENT, false, [])
  }

  /** The text a client has received when generation ends. */
  function Delivered(d: Digits, citations: seq<string>, chunks: seq<string>): string {
    var allowed := set id | id in citations;
    if citations == [] then INSUFFICIENT
    else Streamed(d, allowed, "", chunks)
         + if Stored(d, citations, Concat(chunks)).grounded then "" else INSUFFICIENT
  }

  lemma {:induction false} ConcatSnoc(chunks: seq<string>, last: string)
    ensures Concat(chunks + [last]) == Concat(chunks) + last
  {
    if chunks == [] {
      assert chunks + [last] == [last] && [last][1..] == [] && "" + last == last + "";
    } else {
      assert (chunks + [last])[1..] == chunks[1..] + [last];
      ConcatSnoc(chunks[1..], last);
    }
  }

  /** First every citation, then deltas only. */
  predicate Laid(events: seq<Event>, citations: seq<string>) {
    && |citations| <= |events| && OnlyCitations(events[..|citations|], citations)
    && forall i :: |citations| <= i < |events| ==> events[i].Delta?
  }

  lemma LaidAppend(events: seq<Event>, citations: seq<string>, text: string)
    requires Laid(events, citations)
    ensures Laid(events + [Delta(text)], citations)
    ensures DeltaText(events + [Delta(text)]) == DeltaText(events) + text
  {
    assert (events + [Delta(text)])[..|citations|] == events[..|citations|];
    DeltaTextAppend(events, Delta(text));
  }

  lemma NoCitations(citations: seq<string>)
    ensures OnlyCitations([], citations[..0]) && DeltaText([]) == ""
  {
  }

  method EmitCitations(citations: seq<string>) returns (events: seq<Event>)
    ensures Laid(events, citations) && DeltaText(events) == "" && |events| == |citations|
  {
    hide OnlyCitations, DeltaText;
    events := [];
    NoCitations(citations);
    for i := 0 to |citations|
      invariant |events| == i && OnlyCitations(events, citations[..i]) && DeltaText(events) == ""
    {
      DeltaTextAppend(events, CitationEvent(citations[i]));
      NextCitation(events, citations, i);
      events := events + [CitationEvent(citations[i])];
    }
    assert citations[..|citations|] == citations && events[..|citations|] == events;
  }

  lemma NextCitation(events: seq<Event>, citations: seq<string>, i: nat)
    requires i < |citations| && OnlyCitations(events, citations[..i])
    ensures OnlyCitations(events + [CitationEvent(citations[i])], citations[..i + 1])
  {
  }

  /** The streaming branch of `ask`: emits the citations, then the filtered deltas as they come, then the
      fallback text when the answer turns out ungrounded. */
  method Generate(d: Digits, citations: seq<string>, chunks: seq<string>)
    returns (events: seq<Event>, result: Generated)
    ensures GroundedByCitations(d, citations, Concat(chunks), result)
    ensures result == Stored(d, citations, Concat(chunks))
    ensures Laid(events, citations) && events != []
    ensures DeltaText(events)
         == (if citations == [] then "" else Streamed(d, (set id | id in citations), "", chunks))
            + (if result.grounded then "" else INSUFFICIENT)
    ensures DeltaText(events) == Delivered(d, citations, chunks)
  {
    StoredIsGrounded(d, citations, Concat(chunks));
    hide GroundedByCitations;
    hide Streamed, Sanitize, CitedIds, Validated, HoldFrom, Laid, DeltaText, Concat;
    events := EmitCitations(citations);
    if citations == [] {
      LaidAppend(events, citations, INSUFFICIENT);
      assert "" + INSUFFICIENT == INSUFFICIENT;
      events := events + [Delta(INSUFFICIENT)];
      result := Generated(INSUFFICIENT, false, []);
      return;
    }
    var allowed := set id | id in citations;
    var raw;
    events, raw := Relay(d, allowed, citations, events, chunks);
    raw := Sanitize(d, allowed, raw);
    var used := Validated(d, raw, citations);
    var grounded := used != [];
    result := Generated(if grounded then raw else INSUFFICIENT, grounded, used);
    if !grounded {
      LaidAppend(events, citations, INSUFFICIENT);
      events := events + [Delta(INSUFFICIENT)];
    } else {
      assert DeltaText(events) + "" == DeltaText(events);
    }
  }

  /** The loop over the gateway's deltas. */
  method Relay(d: Digits, allowed: set<string>, citations: seq<string>, events0: seq<Event>, chunks: seq<string>)
    returns (events: seq<Event>, raw: string)
    requires Laid(events0, citations) && DeltaText(events0) == ""
    ensures raw == Concat(chunks)
    ensures Laid(events, citations) && |events0| <= |events|
    ensures DeltaText(events) == Streamed(d, allowed, "", chunks)
  {
    hide Streamed, Sanitize, HoldFrom, Laid, DeltaText;
    events := events0;
    raw := "";
    var filter := new CitationStreamFilter(d, allowed);
    assert chunks[0..] == chunks && chunks[..0] == [];
    assert "" + Streamed(d, allowed, "", chunks) == Streamed(d, allowed, "", chunks);
    for i := 0 to |chunks|
      invariant filter.digits == d && filter.allowed == allowed
      invariant raw == Concat(chunks[..i])
      invariant Laid(events, citations) && |events0| <= |events|
      invariant DeltaText(events) + Streamed(d, allowed, filter.pending, chunks[i..])
             == Streamed(d, allowed, "", chunks)
    {
      raw := Extended(raw, chunks, i);
      StreamedStep(d, allowed, filter.pending, chunks, i);
      ghost var sent := DeltaText(events);
      var safe := filter.Feed(chunks[i]);
      Associative(sent, safe, Streamed(d, allowed, filter.pending, chunks[i + 1..]));
      if safe != "" {
        LaidAppend(events, citations, safe);
        events := events + [Delta(safe)];
      } else {
        assert sent + safe == sent;
      }
    }
    assert chunks[..|chunks|] == chunks;
    StreamedEnd(d, allowed, filter.pending, chunks);
    var tail := filter.Finish();
    if tail != "" {
      LaidAppend(events, citations, tail);
      events := events + [Delta(tail)];
    } else {
      assert DeltaText(events) + "" == DeltaText(events);
    }
  }

  /** `parts.append(delta)`. */
  function Extended(raw: string, chunks: seq<string>, i: nat): (r: string)
    requires i < |chunks| && raw == Concat(chunks[..i])
    ensures r == Concat(chunks[..i + 1])
  {
    assert chunks[..i + 1] == chunks[..i] + [chunks[i]];
    ConcatSnoc(chunks[..i], chunks[i]);
    raw + chunks[i]
  }

  lemma StreamedStep(d: Digits, allowed: set<string>, held: string, chunks: seq<string>, i: nat)
    requires i < |chunks|
    ensures var w := held + chunks[i];
            Streamed(d, allowed, held, chunks[i..])
            == Sanitize(d, allowed, w[..HoldFrom(w)]) + Streamed(d, allowed, w[HoldFrom(w)..], chunks[i + 1..])
  {
    assert chunks[i..][0] == chunks[i] && chunks[i..][1..] == chunks[i + 1..];
  }

  lemma StreamedEnd(d: Digits, allowed: set<string>, held: string, chunks: seq<string>)
    ensures Streamed(d, allowed, held, chunks[|chunks|..]) == held
  {
    assert chunks[|chunks|..] == [];
  }

  /** However the answer is cut into chunks, the client has received exactly the stored answer, for a
      grounded answer if and only if every over-long token names a supplied source; an ungrounded answer is
      stored as the end of what the client received, always. */
  lemma ClientSawWhatWasStored(d: Digits, citations: seq<string>, raw: string)
    ensures var allowed := set id | id in citations;
            var stored := Stored(d, citations, raw);
            && (stored.grounded ==>
                  ((forall chunks :: Concat(chunks) == raw ==> Delivered(d, citations, chunks) == stored.answer)
                   <==> LongTokensKnown(d, allowed, raw)))
            && (!stored.grounded ==>
                  forall chunks :: Concat(chunks) == raw ==> EndsWith(Delivered(d, citations, chunks), stored.answer))
            && (citations == [] ==>
                  forall chunks :: Delivered(d, citations, chunks) == stored.answer)
  {
    hide Streamed, Sanitize, LongTokensKnown, CitedIds, Concat, TokenLength, TokenId;
    var allowed := set id | id in citations;
    var stored := Stored(d, citations, raw);
    if stored.grounded {
      StreamRefinesBatch(d, allowed, raw);
      forall chunks | Concat(chunks) == raw
        ensures Delivered(d, citations, chunks) == Streamed(d, allowed, "", chunks)
      {
        assert Streamed(d, allowed, "", chunks) + "" == Streamed(d, allowed, "", chunks);
      }
    } else {
      forall chunks | Concat(chunks) == raw
        ensures EndsWith(Delivered(d, citations, chunks), stored.answer)
      {
        var front := if citations == [] then "" else Streamed(d, allowed, "", chunks);
        assert Delivered(d, citations, chunks) == front + INSUFFICIENT;
        assert (front + INSUFFICIENT)[|front|..] == INSUFFICIENT;
      }
    }
  }

  predicate EndsWith(s: string, end: string) {
    |end| <= |s| && s[|s| - |end|..] == end
  }

  // ----- framing

  datatype Frame<A> =
    | Retrieving(sequence: nat)
    | Framed(event: Event, sequence: nat)
    | Complete(answer: A, sequence: nat)
    | Failure
    | Heartbeat

  /** What the consumer finds when it waits on the queue: an event, or nothing for fifteen seconds. */
  datatype Tick = Item(event: Event) | Timeout

  datatype Outcome<A> = Answered(answer: A, text: string, citations: seq<string>) | Raised

  function Items(ticks: seq<Tick>): seq<Event> {
    if ticks == [] then []
    else
      var last := |ticks| - 1;
      if ticks[last].Item? then Items(ticks[..last]) + [ticks[last].event] else Items(ticks[..last])
  }

  predicate HasId<A>(f: Frame<A>) { !f.Failure? && !f.Heartbeat? }

  /** The frames that carry an id, with heartbeats and the error frame taken out. */
  function Numbered<A>(frames: seq<Frame<A>>): seq<Frame<A>> {
    if frames == [] then []
    else
      var last := |frames| - 1;
      if HasId(frames[last]) then Numbered(frames[..last]) + [frames[last]] else Numbered(frames[..last])
  }

  lemma NumberedAppend<A>(frames: seq<Frame<A>>, f: Frame<A>)
    ensures Numbered(frames + [f]) == if HasId(f) then Numbered(frames) + [f] else Numbered(frames)
  {
    assert (frames + [f])[..|frames|] == frames;
  }

  lemma ItemsNext(ticks: seq<Tick>, n: nat)
    requires n < |ticks|
    ensures Items(ticks[..n + 1])
         == if ticks[n].Item? then Items(ticks[..n]) + [ticks[n].event] else Items(ticks[..n])
  {
    assert ticks[..n + 1][..n] == ticks[..n];
  }

  /** `retrieving` and one frame per event, with consecutive ids from 1. */
  function Opening<A>(events: seq<Event>): (frames: seq<Frame<A>>)
    ensures |frames| == |events| + 1 && frames[0] == Retrieving(1)
    ensures forall i :: 0 <= i < |events| ==> frames[i + 1] == Framed(events[i], i + 2)
  {
    [Retrieving(1)] + seq(|events|, i requires 0 <= i < |events| => Framed(events[i], i + 2))
  }

  /** A replay had no events of its own: the stored citations and answer stand in for them. */
  function Shown<A>(events: seq<Event>, outcome: Outcome<A>): seq<Event> {
    if events == [] && outcome.Answered? then
      seq(|outcome.citations|, i requires 0 <= i < |outcome.citations| => CitationEvent(outcome.citations[i]))
      + [Delta(outcome.text)]
    else events
  }

  /** The numbered frames of a whole stream: a question that was answered closes with its one `complete`. */
  function Script<A>(events: seq<Event>, outcome: Outcome<A>): seq<Frame<A>> {
    var opening := Opening(Shown(events, outcome));
    if outcome.Answered? then opening + [Complete(outcome.answer, |opening| + 1)] else opening
  }

  /** `events()`: consumes the queue until generation is done, then closes the stream. */
  method Frames<A>(ticks: seq<Tick>, outcome: Outcome<A>) returns (frames: seq<Frame<A>>)
    ensures Numbered(frames) == Script(Items(ticks), outcome)
    ensures frames != []
    ensures outcome.Answered? ==> frames[|frames| - 1] == Complete(outcome.answer, |Numbered(frames)|)
    ensures outcome.Raised? ==> frames[|frames| - 1] == Failure
  {
    hide Numbered, Opening, Items;
    var emitted, sequence;
    ghost var shown;
    frames, emitted, sequence, shown := Consume(ticks);
    match outcome {
      case Raised =>
        NumberedAppend(frames, Failure);
        frames := frames + [Failure];
      case Answered(answer, text, citations) =>
        if emitted == 0 {
          frames, shown, sequence := Replay(frames, sequence, text, citations);
        }
        assert shown == Shown(Items(ticks), outcome);
        sequence := sequence + 1;
        NumberedAppend(frames, Complete(answer, sequence));
        OpeningLength<A>(shown);
        frames := frames + [Complete(answer, sequence)];
    }
  }

  lemma OpeningLength<A>(events: seq<Event>)
    ensures |Opening<A>(events)| == |events| + 1
  {
  }

  /** The loop over the queue. */
  method Consume<A>(ticks: seq<Tick>)
    returns (frames: seq<Frame<A>>, emitted: nat, sequence: nat, ghost shown: seq<Event>)
    ensures shown == Items(ticks) && emitted == |shown|
    ensures frames != [] && sequence == |shown| + 1 && Numbered(frames) == Opening<A>(shown)
  {
    sequence, emitted := 1, 0;
    frames := [Retrieving(sequence)];
    shown := [];
    assert Numbered(frames) == Opening<A>([]) by { NumberedAppend<A>([], Retrieving(1)); }
    assert ticks[..0] == [];
    for i := 0 to |ticks|
      invariant shown == Items(ticks[..i]) && emitted == |shown|
      invariant frames != [] && sequence == |shown| + 1 && Numbered(frames) == Opening<A>(shown)
    {
      ItemsNext(ticks, i);
      match ticks[i] {
        case Timeout =>
          NumberedAppend(frames, Heartbeat);
          frames := frames + [Heartbeat];
        case Item(event) =>
          emitted := emitted + 1;
          sequence := sequence + 1;
          frames, shown := Emit(frames, shown, event, sequence);
      }
    }
    assert ticks[..|ticks|] == ticks;
  }

  /** The frames of an answer that was stored earlier. */
  method Replay<A>(frames0: seq<Frame<A>>, sequence0: nat, text: string, citations: seq<string>)
    returns (frames: seq<Frame<A>>, ghost shown: seq<Event>, sequence: nat)
    requires frames0 != [] && sequence0 == 1 && Numbered(frames0) == Opening<A>([])
    ensures shown == seq(|citations|, k requires 0 <= k < |citations| => CitationEvent(citations[k])) + [Delta(text)]
    ensures frames != [] && sequence == |shown| + 1 && Numbered(frames) == Opening<A>(shown)
  {
    frames, shown, sequence := frames0, [], sequence0;
    for i := 0 to |citations|
      invariant shown == seq(i, k requires 0 <= k < i => CitationEvent(citations[k]))
      invariant frames != [] && sequence == |shown| + 1 && Numbered(frames) == Opening<A>(shown)
    {
      sequence := sequence + 1;
      frames, shown := Emit(frames, shown, CitationEvent(citations[i]), sequence);
    }
    sequence := sequence + 1;
    frames, shown := Emit(frames, shown, Delta(text), sequence);
  }

  /** `yield frame(event, payload, sequence)`. */
  method Emit<A>(frames: seq<Frame<A>>, ghost shown: seq<Event>, event: Event, sequence: nat)
    returns (frames': seq<Frame<A>>, ghost shown': seq<Event>)
    requires sequence == |shown| + 2 && Numbered(frames) == Opening<A>(shown)
    ensures frames' == frames + [Framed(event, sequence)] && shown' == shown + [event]
    ensures Numbered(frames') == Opening<A>(shown')
  {
    frames' := frames + [Framed(event, sequence)];
    shown' := shown + [event];
    NumberedAppend(frames, Framed(event, sequence));
    assert Opening<A>(shown') == Opening<A>(shown) + [Framed(event, sequence)];
  }

  // ----- what a client can rely on

  function IdOf<A>(f: Frame<A>): nat
    requires HasId(f)
  {
    match f
    case Retrieving(n) => n
    case Framed(_, n) => n
    case Complete(_, n) => n
  }

  lemma {:induction false} NumberedKeeps<A>(frames: seq<Frame<A>>)
    ensures forall f :: f in Numbered(frames) <==> f in frames && HasId(f)
  {
    if frames != [] {
      var last := |frames| - 1;
      NumberedKeeps(frames[..last]);
      assert frames == frames[..last] + [frames[last]];
    }
  }

  /** Ids are 1, 2, 3, ...; `complete` appears exactly when the question was answered, once and last, and
      nothing follows a failure either. */
  lemma StreamIsWellFormed<A>(frames: seq<Frame<A>>, ticks: seq<Tick>, outcome: Outcome<A>)
    requires Numbered(frames) == Script(Items(ticks), outcome)
    ensures var n := Numbered(frames);
            && (forall i :: 0 <= i < |n| ==> HasId(n[i]) && IdOf(n[i]) == i + 1)
            && (forall i :: 0 <= i < |n| ==> (n[i].Complete? <==> outcome.Answered? && i == |n| - 1))
    ensures forall f :: f in frames && f.Complete? ==> outcome.Answered? && f.answer == outcome.answer
  {
    NumberedKeeps(frames);
    forall f | f in frames && f.Complete? ensures outcome.Answered? && f.answer == outcome.answer {
      assert f in Numbered(frames);
    }
  }
}
