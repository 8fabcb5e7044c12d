/**
 One spoken reply: the language model's callback cuts the reply into segments and puts them on a bounded channel, and
 a second goroutine speaks them. internal/voicews/session.go:942-1150 and 1291-1369.

 The producer is the goroutine of runResponse with the model's callback; the consumer is that of runRealtimeTTS.
 Everything either does between two points where the other, or whoever cancels the response, can be seen is one step,
 and steps come in any order the program allows. A provider may do anything that ends: bring any deltas and then
 succeed or fail, synthesise any number of chunks and then succeed or fail; and a model may go on, as if nothing had
 happened, after its callback has failed.
 */
module Response {
  import opened Common
  import opened Text
  import opened Segmenter
  import Outbound
  import RealtimeTTS

  /** What ttsSegments holds at most. */
  const CAPACITY := 8

  /** realtimeTTSResult.err */
  datatype Outcome = Fine | Failing(why: RealtimeTTS.Failure)

  /** How runResponse returns; the last two leave the channel open. */
  datatype Exit = Completed | Cancelled | Failed | FlushFailed | DoneUnsent

  datatype Producer =
    | Streaming                                       // the model is talking
    | Enqueueing(rest: seq<string>, flushing: bool)   // in enqueueTTSSegment, or between two calls of it
    | Aborting                                        // the stream failed; cancelTTS is next
    | Closing                                         // and then closeSegments
    | Announcing                                      // about to write llm.done
    | Waiting                                         // in waitForTTS
    | Exited(exit: Exit)

  datatype Consumer = Ranging | Got(segment: string) | Speaking(segment: string) | Returning(outcome: Outcome) | Gone

  /**
   buffer, closed: the channel of segments; posted: the channel of the result; early: earlyTTSResult; cancelled and
   ttsCancelled: the two contexts; broken: the connection takes nothing more. enqueued, received and spoken record what
   went through, heard the deltas that reached the segmenter, and lost that a segment was passed over because the
   model went on after its callback had failed; chunks is chunkCount.
   */
  datatype State = State(
    producer: Producer, consumer: Consumer,
    reply: string, heard: string, pending: string, lost: bool,
    buffer: seq<string>, closed: bool, posted: Option<Outcome>, early: Option<Outcome>,
    cancelled: bool, ttsCancelled: bool, broken: bool,
    enqueued: seq<string>, received: seq<string>, spoken: seq<string>, chunks: nat)

  const INITIAL := State(Streaming, Ranging, "", "", "", false, [], false, None, None, false, false, false, [], [], [], 0)

  datatype Step =
    // the producer; goesOn says whether the model goes on if this makes its callback fail
    | Delta(text: string, goesOn: bool)
    | StreamEnds(ok: bool)
    | Send
    | TakeEarly(goesOn: bool)
    | FailAgain(goesOn: bool)
    | NoticeCancel(goesOn: bool)
    | EnqueueEnds
    | CancelSpeech
    | CloseAborted
    | Announce
    | CloseSegments
    | Await
    // the consumer
    | Receive
    | EndOfRange
    | CheckContext
    | Synthesised(chunks: nat, ok: bool)
    | Post
    // anyone
    | Cancel
    | Break

  /** What adding a delta to the segmenter's pending text brings. */
  type Add = (string, string) -> Progress

  function SegmenterOf(limits: Limits): Add {
    (pending, delta) => Feed(Progress([], pending), delta, limits)
  }

  /** enqueueTTSSegment has a segment to put on the channel. */
  predicate InEnqueue(s: State) {
    s.producer.Enqueueing? && s.producer.rest != []
  }

  predicate Enabled(s: State, step: Step) {
    match step
    case Delta(_, _) => s.producer.Streaming?
    case StreamEnds(_) => s.producer.Streaming?
    case Send => InEnqueue(s) && s.early.None? && |s.buffer| < CAPACITY && !s.closed
    case TakeEarly(_) => InEnqueue(s) && s.early.None? && s.posted.Some?
    case FailAgain(_) => InEnqueue(s) && s.early.Some?
    case NoticeCancel(_) => InEnqueue(s) && s.early.None? && s.cancelled
    case EnqueueEnds => s.producer.Enqueueing? && s.producer.rest == []
    case CancelSpeech => s.producer.Aborting?
    case CloseAborted => s.producer.Closing?
    case Announce => s.producer.Announcing?
    case CloseSegments => s.producer.Waiting? && !s.closed
    case Await => s.producer.Waiting? && s.closed && (s.early.Some? || s.posted.Some?)
    case Receive => s.consumer.Ranging? && s.buffer != []
    case EndOfRange => s.consumer.Ranging? && s.buffer == [] && s.closed
    case CheckContext => s.consumer.Got?
    case Synthesised(_, _) => s.consumer.Speaking?
    case Post => s.consumer.Returning?
    case Cancel => true
    case Break => true
  }

  /** Every return runs the deferred cancelTTS. */
  function Leave(s: State, exit: Exit): State {
    s.(producer := Exited(exit), ttsCancelled := true)
  }

  /** An error of enqueueTTSSegment: the flush gives up, or the callback fails with it, and the model heeds that or not. */
  function EnqueueFails(s: State, goesOn: bool): State
    requires s.producer.Enqueueing?
  {
    if s.producer.flushing then Leave(s, FlushFailed)
    else if goesOn then s.(producer := Streaming, lost := true)
    else s.(producer := Aborting)
  }

  /** What becomes of the response once the result of the synthesis is there. */
  function ExitOf(s: State, outcome: Outcome): Exit {
    var failed := if Trim(s.reply) == "" then outcome.Failing? else outcome.Failing? || s.chunks == 0;
    if s.cancelled then Cancelled else if failed then Failed else Completed
  }

  /** What waitForTTS returns. */
  function ResultOf(s: State): Outcome
    requires s.early.Some? || s.posted.Some?
  {
    if s.early.Some? then s.early.value else s.posted.value
  }

  function OnDelta(s: State, text: string, goesOn: bool, add: Add): State {
    var more := s.(reply := s.reply + text);
    if Outbound.LlmDelta(text).Valid() && !s.broken then
      var p := add(s.pending, text);
      more.(heard := s.heard + text, pending := p.rest, producer := Enqueueing(p.segments, false))
    else if goesOn then more
    else more.(producer := Aborting)
  }

  function OnStreamEnds(s: State, ok: bool): State {
    if !ok then s.(producer := Aborting)
    else if Trim(s.reply) == "" then s.(producer := Announcing)
    else s.(producer := Enqueueing(Emit(s.pending), true), pending := "")
  }

  function OnSend(s: State): State
    requires InEnqueue(s)
  {
    var segment := s.producer.rest[0];
    s.(buffer := s.buffer + [segment], enqueued := s.enqueued + [segment],
       producer := Enqueueing(s.producer.rest[1..], s.producer.flushing))
  }

  function OnAnnounce(s: State): State {
    if Outbound.LlmDone(Trim(s.reply)).Valid() && !s.broken then s.(producer := Waiting) else Leave(s, DoneUnsent)
  }

  function Produce(s: State, step: Step, add: Add): State
    requires Enabled(s, step)
  {
    match step
    case Delta(text, goesOn) => OnDelta(s, text, goesOn, add)
    case StreamEnds(ok) => OnStreamEnds(s, ok)
    case Send => OnSend(s)
    case TakeEarly(goesOn) => EnqueueFails(s.(early := s.posted, posted := None), goesOn)
    case FailAgain(goesOn) => EnqueueFails(s, goesOn)
    case NoticeCancel(goesOn) => EnqueueFails(s, goesOn)
    case EnqueueEnds => s.(producer := if s.producer.flushing then Announcing else Streaming)
    case CancelSpeech => s.(producer := Closing, ttsCancelled := true)
    case CloseAborted => Leave(s.(closed := true), if s.cancelled then Cancelled else Failed)
    case Announce => OnAnnounce(s)
    case CloseSegments => s.(closed := true)
    case Await => Leave(s.(posted := None), ExitOf(s, ResultOf(s)))
    case _ => s
  }

  function OnSynthesised(s: State, n: nat, ok: bool): State
    requires s.consumer.Speaking?
  {
    var more := s.(chunks := s.chunks + n);
    if !ok then more.(consumer := Returning(Failing(RealtimeTTS.SynthesisFailed)))
    else if n == 0 then more.(consumer := Returning(Failing(RealtimeTTS.NoAudio)))
    else more.(consumer := Ranging, spoken := s.spoken + [s.consumer.segment])
  }

  function Consume(s: State, step: Step): State
    requires Enabled(s, step)
  {
    match step
    case Receive => s.(consumer := Got(s.buffer[0]), buffer := s.buffer[1..], received := s.received + [s.buffer[0]])
    case EndOfRange => s.(consumer := Returning(Fine))
    case CheckContext =>
      s.(consumer := if s.cancelled || s.ttsCancelled then Returning(Failing(RealtimeTTS.ContextCancelled))
                     else Speaking(s.consumer.segment))
    case Synthesised(n, ok) => OnSynthesised(s, n, ok)
    case Post => s.(consumer := Gone, posted := Some(s.consumer.outcome))
    case _ => s
  }

  predicate OfConsumer(step: Step) {
    step.Receive? || step.EndOfRange? || step.CheckContext? || step.Synthesised? || step.Post?
  }

  predicate OfAnyone(step: Step) {
    step.Cancel? || step.Break?
  }

  function Next(s: State, step: Step, add: Add): State
    requires Enabled(s, step)
  {
    if step.Cancel? then s.(cancelled := true)
    else if step.Break? then s.(broken := true)
    else if OfConsumer(step) then Consume(s, step)
    else Produce(s, step, add)
  }

  /** A step that the program cannot take in a state is skipped, so every list of steps is a run. */
  function After(run: seq<Step>, limits: Limits): State {
    if run == [] then INITIAL
    else
      var s, step := After(run[..|run| - 1], limits), run[|run| - 1];
      if Enabled(s, step) then Next(s, step, SegmenterOf(limits)) else s
  }

  lemma AfterSnoc(run: seq<Step>, step: Step, limits: Limits)
    ensures var s := After(run, limits);
            After(run + [step], limits) == if Enabled(s, step) then Next(s, step, SegmenterOf(limits)) else s
  {
    assert (run + [step])[..|run|] == run;
  }

  // ---- What holds in every state ----

  /** Nothing is lost, repeated or reordered on the channel, and it never holds more than it can. */
  ghost predicate ChannelFits(s: State) {
    s.received + s.buffer == s.enqueued && |s.buffer| <= CAPACITY
  }

  /** Everything that was ever enqueued has been spoken, and no more can come. */
  ghost predicate Drained(s: State) {
    s.closed && s.buffer == [] && s.spoken == s.received
  }

  ghost predicate ConsumerFits(s: State) {
    && s.spoken <= s.received && |s.spoken| <= s.chunks
    && (s.consumer.Returning? || s.consumer.Gone? ==> s.closed || s.received != [])
    && match s.consumer
       case Ranging => s.spoken == s.received
       case Got(segment) => s.received == s.spoken + [segment]
       case Speaking(segment) => s.received == s.spoken + [segment]
       case Returning(outcome) => outcome.Fine? ==> Drained(s)
       case Gone => true
  }

  /** The one result is on its way, posted, taken early, or taken in the end. */
  ghost predicate ResultFits(s: State) {
    && (s.posted.Some? || s.early.Some? ==> s.consumer.Gone?)
    && (s.early.Some? ==> s.posted.None? && s.early.value.Failing?)
    && (s.posted == Some(Fine) ==> Drained(s))
    && (s.consumer.Gone? ==> s.posted.Some? || s.early.Some? || s.producer.Exited?)
  }

  ghost predicate ProducerFits(s: State) {
    && (s.closed ==> s.producer.Waiting? || s.producer.Exited?)
    && (s.producer.Exited? ==>
          && s.ttsCancelled
          && (s.closed <==> !s.producer.exit.FlushFailed? && !s.producer.exit.DoneUnsent?))
  }

  /** The elements of a are among those of b, in the same order. */
  ghost predicate InOrder(a: seq<string>, b: seq<string>)
    decreases |b|
  {
    || a == []
    || (b != [] && (|| InOrder(a, b[..|b| - 1])
                    || (a[|a| - 1] == b[|b| - 1] && InOrder(a[..|a| - 1], b[..|b| - 1]))))
  }

  /** Of the segments cut so far, `rest` is still to be enqueued, and the others have been, but for those passed over. */
  ghost predicate Handled(enqueued: seq<string>, lost: bool, cut: seq<string>, rest: seq<string>) {
    && |rest| <= |cut|
    && var done := cut[..|cut| - |rest|];
       cut == done + rest && InOrder(enqueued, done) && (!lost ==> enqueued == done)
  }

  /** What has been enqueued is what the segmenter has made of the deltas that reached it. */
  ghost predicate TextFits(producer: Producer, heard: string, pending: string, enqueued: seq<string>, lost: bool,
                           limits: Limits) {
    match producer
    case Streaming => Fed(heard, pending, enqueued, lost, [], limits)
    case Enqueueing(rest, flushing) =>
      if flushing then Handled(enqueued, lost, Segments(heard, limits), rest)
      else Fed(heard, pending, enqueued, lost, rest, limits)
    case Announcing => Handled(enqueued, lost, Segments(heard, limits), [])
    case Waiting => Handled(enqueued, lost, Segments(heard, limits), [])
    case _ => true
  }

  ghost predicate Fed(heard: string, pending: string, enqueued: seq<string>, lost: bool, rest: seq<string>,
                      limits: Limits) {
    var p := Feed(START, heard, limits);
    p.rest == pending && Handled(enqueued, lost, p.segments, rest)
  }

  /** A delta is missing only on a broken connection, a segment only after a failure of the synthesis or a cancel. */
  ghost predicate GapsFit(s: State) {
    && (s.heard != s.reply ==> s.broken)
    && (forall c :: c in s.heard ==> c in s.reply)
    && (s.lost ==> s.early.Some? || s.cancelled)
    && (s.producer.Waiting? ==> s.heard == s.reply && Trim(s.reply) != "")
  }

  ghost predicate CompletedFits(s: State, limits: Limits) {
    s.producer == Exited(Completed) ==>
      && s.consumer.Gone? && s.chunks > 0
      && s.spoken == s.enqueued == Segments(s.reply, limits) && Trim(s.reply) != ""
  }

  /** What has been enqueued are segments of the deltas that got through, in order, and the first ones if none is lost. */
  ghost predicate Within(enqueued: seq<string>, lost: bool, segments: seq<string>) {
    InOrder(enqueued, segments) && (!lost ==> enqueued <= segments)
  }

  ghost predicate ReplyFits(s: State, limits: Limits) {
    && TextFits(s.producer, s.heard, s.pending, s.enqueued, s.lost, limits)
    && Within(s.enqueued, s.lost, Segments(s.heard, limits))
  }

  /** What does not depend on the text. */
  ghost predicate ControlFits(s: State) {
    ChannelFits(s) && ConsumerFits(s) && ResultFits(s) && ProducerFits(s)
  }

  ghost predicate Invariant(s: State, limits: Limits) {
    ControlFits(s) && GapsFit(s) && ReplyFits(s, limits) && CompletedFits(s, limits)
  }

  // ---- Lists in order ----

  lemma {:induction false} InOrderMore(a: seq<string>, b: seq<string>, more: seq<string>)
    requires InOrder(a, b)
    ensures InOrder(a, b + more)
    decreases |more|
  {
    if more == [] {
      assert b + more == b;
    } else {
      InOrderMore(a, b, more[..|more| - 1]);
      assert (b + more)[..|b + more| - 1] == b + more[..|more| - 1];
    }
  }

  lemma InOrderSnoc(a: seq<string>, b: seq<string>, x: string)
    requires InOrder(a, b)
    ensures InOrder(a + [x], b + [x])
  {
    assert (a + [x])[..|a|] == a && (b + [x])[..|b|] == b;
  }

  lemma {:induction false} InOrderAreThere(a: seq<string>, b: seq<string>)
    requires InOrder(a, b)
    ensures forall x :: x in a ==> x in b
    decreases |b|
  {
    if a != [] {
      var b' := b[..|b| - 1];
      if InOrder(a, b') {
        InOrderAreThere(a, b');
      } else {
        InOrderAreThere(a[..|a| - 1], b');
        assert a == a[..|a| - 1] + [a[|a| - 1]];
      }
    }
  }

  lemma HandledMore(enqueued: seq<string>, lost: bool, cut: seq<string>, more: seq<string>)
    requires Handled(enqueued, lost, cut, [])
    ensures Handled(enqueued, lost, cut + more, more)
  {
    assert cut[..|cut|] == cut && (cut + more)[..|cut|] == cut;
  }

  lemma HandledNext(enqueued: seq<string>, lost: bool, cut: seq<string>, rest: seq<string>)
    requires Handled(enqueued, lost, cut, rest) && rest != []
    ensures Handled(enqueued + [rest[0]], lost, cut, rest[1..])
  {
    var done := cut[..|cut| - |rest|];
    InOrderSnoc(enqueued, done, rest[0]);
    assert cut[..|cut| - |rest[1..]|] == done + [rest[0]];
  }

  lemma HandledSkips(enqueued: seq<string>, lost: bool, cut: seq<string>, rest: seq<string>)
    requires Handled(enqueued, lost, cut, rest)
    ensures Handled(enqueued, true, cut, [])
  {
    var done := cut[..|cut| - |rest|];
    InOrderMore(enqueued, done, rest);
    assert cut[..|cut|] == cut == cut + [];
  }

  lemma HandledIsWithin(enqueued: seq<string>, lost: bool, cut: seq<string>, rest: seq<string>, tail: seq<string>)
    requires Handled(enqueued, lost, cut, rest)
    ensures Within(enqueued, lost, cut + tail)
  {
    var done := cut[..|cut| - |rest|];
    InOrderMore(enqueued, done, rest + tail);
    assert done + (rest + tail) == cut + tail;
  }

  predicate TextMatters(producer: Producer) {
    producer.Streaming? || producer.Enqueueing? || producer.Announcing? || producer.Waiting?
  }

  lemma FittingIsWithin(producer: Producer, heard: string, pending: string, enqueued: seq<string>, lost: bool,
                        limits: Limits)
    requires TextFits(producer, heard, pending, enqueued, lost, limits) && TextMatters(producer)
    ensures Within(enqueued, lost, Segments(heard, limits))
  {
    var p, all := Feed(START, heard, limits), Segments(heard, limits);
    var rest := if producer.Enqueueing? then producer.rest else [];
    if producer.Streaming? || (producer.Enqueueing? && !producer.flushing) {
      HandledIsWithin(enqueued, lost, p.segments, rest, Emit(p.rest));
    } else {
      HandledIsWithin(enqueued, lost, all, rest, []);
      assert all + [] == all;
    }
  }

  // ---- Each step keeps it ----

  lemma ReceiveKeepsControl(s: State)
    requires ControlFits(s) && Enabled(s, Receive)
    ensures ControlFits(Consume(s, Receive))
  {
    var next := Consume(s, Receive);
    assert s.buffer == [s.buffer[0]] + s.buffer[1..];
    assert next.received + next.buffer == s.received + s.buffer;
  }

  lemma RangeEndKeepsControl(s: State)
    requires ControlFits(s) && Enabled(s, EndOfRange)
    ensures ControlFits(Consume(s, EndOfRange))
  {
  }

  lemma CheckKeepsControl(s: State)
    requires ControlFits(s) && Enabled(s, CheckContext)
    ensures ControlFits(Consume(s, CheckContext))
  {
  }

  lemma SynthesisKeepsControl(s: State, n: nat, ok: bool)
    requires ControlFits(s) && s.consumer.Speaking?
    ensures ControlFits(OnSynthesised(s, n, ok))
  {
  }

  lemma PostKeepsControl(s: State)
    requires ControlFits(s) && Enabled(s, Post)
    ensures ControlFits(Consume(s, Post))
  {
  }

  lemma ConsumerKeepsControl(s: State, step: Step)
    requires ControlFits(s) && Enabled(s, step) && OfConsumer(step)
    ensures ControlFits(Consume(s, step))
  {
    match step
    case Receive => ReceiveKeepsControl(s);
    case EndOfRange => RangeEndKeepsControl(s);
    case CheckContext => CheckKeepsControl(s);
    case Synthesised(n, ok) => SynthesisKeepsControl(s, n, ok);
    case Post => PostKeepsControl(s);
  }

  /** Nothing changes that the text depends on. */
  ghost predicate SameText(s: State, t: State) {
    && t.producer == s.producer && t.reply == s.reply && t.heard == s.heard && t.pending == s.pending
    && t.lost == s.lost && t.enqueued == s.enqueued && t.early == s.early
    && (s.cancelled ==> t.cancelled) && (s.broken ==> t.broken)
    && (s.consumer.Gone? ==> t.consumer.Gone? && t.chunks == s.chunks && t.spoken == s.spoken)
  }

  lemma SynthesisKeepsText(s: State, n: nat, ok: bool)
    requires s.consumer.Speaking?
    ensures SameText(s, OnSynthesised(s, n, ok))
  {
  }

  lemma ConsumerKeepsText(s: State, step: Step)
    requires Enabled(s, step) && OfConsumer(step)
    ensures SameText(s, Consume(s, step))
  {
    match step
    case Receive =>
    case EndOfRange =>
    case CheckContext =>
    case Synthesised(n, ok) => SynthesisKeepsText(s, n, ok);
    case Post =>
  }

  lemma OthersKeepText(s: State, step: Step, add: Add)
    requires Enabled(s, step) && (OfConsumer(step) || OfAnyone(step))
    ensures SameText(s, Next(s, step, add))
  {
    if OfConsumer(step) {
      ConsumerKeepsText(s, step);
    }
  }

  lemma SameTextFits(s: State, t: State, limits: Limits)
    requires GapsFit(s) && ReplyFits(s, limits) && CompletedFits(s, limits) && SameText(s, t)
    ensures GapsFit(t) && ReplyFits(t, limits) && CompletedFits(t, limits)
  {
  }

  /** A segment goes from the producer's hands onto the channel. */
  lemma SendKeepsControl(s: State)
    requires ControlFits(s) && Enabled(s, Send)
    ensures ControlFits(OnSend(s))
  {
    var segment := s.producer.rest[0];
    assert s.received + (s.buffer + [segment]) == s.received + s.buffer + [segment];
  }

  lemma DeltaKeepsControl(s: State, text: string, goesOn: bool, add: Add)
    requires ControlFits(s) && s.producer.Streaming?
    ensures ControlFits(OnDelta(s, text, goesOn, add))
  {
    SameChannelFits(s, OnDelta(s, text, goesOn, add));
  }

  /** The producer moves on while the channel is open, and nothing but the text changes. */
  ghost predicate SameChannel(s: State, t: State) {
    && t.consumer == s.consumer && t.buffer == s.buffer && t.closed == s.closed && t.posted == s.posted
    && t.early == s.early && t.enqueued == s.enqueued && t.received == s.received && t.spoken == s.spoken
    && t.chunks == s.chunks && !t.producer.Waiting? && !t.producer.Exited?
  }

  lemma SameChannelFits(s: State, t: State)
    requires ControlFits(s) && SameChannel(s, t) && !s.closed && !s.producer.Exited?
    ensures ControlFits(t)
  {
  }

  lemma StreamEndKeepsControl(s: State, ok: bool)
    requires ControlFits(s) && s.producer.Streaming?
    ensures ControlFits(OnStreamEnds(s, ok))
  {
    SameChannelFits(s, OnStreamEnds(s, ok));
  }

  lemma EarlyKeepsControl(s: State)
    requires ControlFits(s) && Enabled(s, TakeEarly(false))
    ensures ControlFits(s.(early := s.posted, posted := None))
  {
  }

  lemma FailureKeepsControl(s: State, goesOn: bool)
    requires ControlFits(s) && s.producer.Enqueueing?
    ensures ControlFits(EnqueueFails(s, goesOn))
  {
  }

  lemma EnqueueEndKeepsControl(s: State, add: Add)
    requires ControlFits(s) && Enabled(s, EnqueueEnds)
    ensures ControlFits(Produce(s, EnqueueEnds, add))
  {
  }

  lemma AbortKeepsControl(s: State, add: Add)
    requires ControlFits(s)
    ensures Enabled(s, CancelSpeech) ==> ControlFits(Produce(s, CancelSpeech, add))
    ensures Enabled(s, CloseAborted) ==> ControlFits(Produce(s, CloseAborted, add))
  {
  }

  lemma AnnounceKeepsControl(s: State)
    requires ControlFits(s) && s.producer.Announcing?
    ensures ControlFits(OnAnnounce(s))
  {
  }

  lemma CloseKeepsControl(s: State, add: Add)
    requires ControlFits(s) && Enabled(s, CloseSegments)
    ensures ControlFits(Produce(s, CloseSegments, add))
  {
  }

  lemma AwaitKeepsControl(s: State, add: Add)
    requires ControlFits(s) && Enabled(s, Await)
    ensures ControlFits(Produce(s, Await, add))
  {
  }

  lemma ProducerKeepsControl(s: State, step: Step, add: Add)
    requires ControlFits(s) && Enabled(s, step) && !OfConsumer(step) && !OfAnyone(step)
    ensures ControlFits(Produce(s, step, add))
  {
    match step
    case Delta(text, goesOn) => DeltaKeepsControl(s, text, goesOn, add);
    case StreamEnds(ok) => StreamEndKeepsControl(s, ok);
    case Send => SendKeepsControl(s);
    case TakeEarly(goesOn) =>
      EarlyKeepsControl(s);
      FailureKeepsControl(s.(early := s.posted, posted := None), goesOn);
    case FailAgain(goesOn) => FailureKeepsControl(s, goesOn);
    case NoticeCancel(goesOn) => FailureKeepsControl(s, goesOn);
    case EnqueueEnds => EnqueueEndKeepsControl(s, add);
    case CancelSpeech => AbortKeepsControl(s, add);
    case CloseAborted => AbortKeepsControl(s, add);
    case Announce => AnnounceKeepsControl(s);
    case CloseSegments => CloseKeepsControl(s, add);
    case Await => AwaitKeepsControl(s, add);
  }

  /** The segmenter takes one more delta. */
  lemma DeltaIsFed(heard: string, pending: string, enqueued: seq<string>, lost: bool, text: string, limits: Limits)
    requires Fed(heard, pending, enqueued, lost, [], limits)
    ensures var p := Feed(Progress([], pending), text, limits);
            Fed(heard + text, p.rest, enqueued, lost, p.segments, limits)
  {
    var before, p := Feed(START, heard, limits), Feed(Progress([], pending), text, limits);
    FeedAppend(START, heard, text, limits);
    FeedKeepsEmitted(before.segments, pending, text, limits);
    HandledMore(enqueued, lost, before.segments, p.segments);
  }

  predicate SameWords(s: State, t: State) {
    t.heard == s.heard && t.enqueued == s.enqueued && t.lost == s.lost
  }

  /** GapsFit and TextFits of a state: what the text has to do with the steps of the producer. */
  ghost predicate WordsFit(s: State, limits: Limits) {
    GapsFit(s) && TextFits(s.producer, s.heard, s.pending, s.enqueued, s.lost, limits)
  }

  lemma DeltaFits(s: State, text: string, goesOn: bool, limits: Limits)
    requires WordsFit(s, limits) && s.producer.Streaming?
    ensures WordsFit(OnDelta(s, text, goesOn, SegmenterOf(limits)), limits)
  {
    DeltaIsFed(s.heard, s.pending, s.enqueued, s.lost, text, limits);
    assert text == "" ==> s.reply + text == s.reply;
  }

  /** The rest of the segmenter's buffer is flushed, unless the reply is blank, and then there is nothing in it. */
  lemma FlushFits(heard: string, pending: string, enqueued: seq<string>, lost: bool, limits: Limits)
    requires Fed(heard, pending, enqueued, lost, [], limits) && limits.Valid()
    ensures Handled(enqueued, lost, Segments(heard, limits), Emit(pending))
    ensures Trim(heard) == "" ==> Handled(enqueued, lost, Segments(heard, limits), [])
  {
    NoSegmentIffBlank(heard, limits);
    HandledMore(enqueued, lost, Feed(START, heard, limits).segments, Emit(pending));
  }

  /** What is made of the runes of a blank text is blank. */
  lemma PartOfBlank(part: string, whole: string)
    requires Trim(whole) == "" && forall c :: c in part ==> c in whole
    ensures Trim(part) == ""
  {
    TrimBlank(whole);
    TrimBlank(part);
    forall i | 0 <= i < |part| ensures IsSpace(part[i]) {
      assert part[i] in part;
      var j: nat :| j < |whole| && whole[j] == part[i];
    }
  }

  lemma StreamEndFits(s: State, ok: bool, limits: Limits)
    requires WordsFit(s, limits) && s.producer.Streaming? && limits.Valid()
    ensures WordsFit(OnStreamEnds(s, ok), limits)
  {
    FlushFits(s.heard, s.pending, s.enqueued, s.lost, limits);
    if Trim(s.reply) == "" {
      PartOfBlank(s.heard, s.reply);
    }
  }

  lemma SendFits(s: State, limits: Limits)
    requires WordsFit(s, limits) && InEnqueue(s)
    ensures WordsFit(OnSend(s), limits)
  {
    var rest := s.producer.rest;
    if s.producer.flushing {
      HandledNext(s.enqueued, s.lost, Segments(s.heard, limits), rest);
    } else {
      HandledNext(s.enqueued, s.lost, Feed(START, s.heard, limits).segments, rest);
    }
  }

  lemma FailureFits(s: State, goesOn: bool, limits: Limits)
    requires WordsFit(s, limits) && s.producer.Enqueueing? && (s.early.Some? || s.cancelled)
    ensures WordsFit(EnqueueFails(s, goesOn), limits)
  {
    if !s.producer.flushing {
      HandledSkips(s.enqueued, s.lost, Feed(START, s.heard, limits).segments, s.producer.rest);
    }
  }

  lemma EnqueueEndFits(s: State, add: Add, limits: Limits)
    requires WordsFit(s, limits) && Enabled(s, EnqueueEnds)
    ensures WordsFit(Produce(s, EnqueueEnds, add), limits)
  {
  }

  lemma AnnounceKeepsGaps(s: State)
    requires GapsFit(s)
    ensures GapsFit(OnAnnounce(s))
    ensures SameWords(s, OnAnnounce(s)) && (OnAnnounce(s).producer.Waiting? || OnAnnounce(s).producer.Exited?)
  {
  }

  lemma AnnouncedTextFits(heard: string, pending: string, enqueued: seq<string>, lost: bool, next: Producer, limits: Limits)
    requires TextFits(Announcing, heard, pending, enqueued, lost, limits) && (next.Waiting? || next.Exited?)
    ensures forall any: string :: TextFits(next, heard, any, enqueued, lost, limits)
  {
  }

  lemma AnnounceFits(s: State, limits: Limits)
    requires WordsFit(s, limits) && s.producer.Announcing?
    ensures WordsFit(OnAnnounce(s), limits)
  {
    AnnounceKeepsGaps(s);
    AnnouncedTextFits(s.heard, s.pending, s.enqueued, s.lost, OnAnnounce(s).producer, limits);
  }

  lemma ProducerFitsWords(s: State, step: Step, add: Add, limits: Limits)
    requires add == SegmenterOf(limits) && limits.Valid()
    requires WordsFit(s, limits) && Enabled(s, step) && !OfConsumer(step) && !OfAnyone(step)
    ensures WordsFit(Produce(s, step, add), limits)
  {
    match step
    case Delta(text, goesOn) => DeltaFits(s, text, goesOn, limits);
    case StreamEnds(ok) => StreamEndFits(s, ok, limits);
    case Send => SendFits(s, limits);
    case TakeEarly(goesOn) => FailureFits(s.(early := s.posted, posted := None), goesOn, limits);
    case FailAgain(goesOn) => FailureFits(s, goesOn, limits);
    case NoticeCancel(goesOn) => FailureFits(s, goesOn, limits);
    case EnqueueEnds => EnqueueEndFits(s, add, limits);
    case Announce => AnnounceFits(s, limits);
    case _ =>
  }

  lemma DeltaLeaves(s: State, text: string, goesOn: bool, add: Add)
    requires !TextMatters(OnDelta(s, text, goesOn, add).producer)
    ensures var next := OnDelta(s, text, goesOn, add); SameWords(s, next)
  {
  }

  lemma StreamEndLeaves(s: State, ok: bool)
    requires !TextMatters(OnStreamEnds(s, ok).producer)
    ensures SameWords(s, OnStreamEnds(s, ok))
  {
  }

  lemma FailureLeaves(s: State, goesOn: bool)
    requires s.producer.Enqueueing? && !TextMatters(EnqueueFails(s, goesOn).producer)
    ensures SameWords(s, EnqueueFails(s, goesOn))
  {
  }

  /** Where the text matters no more, nothing of it has changed. */
  lemma LeavingKeepsText(s: State, step: Step, add: Add)
    requires Enabled(s, step) && !OfConsumer(step) && !OfAnyone(step) && !TextMatters(Produce(s, step, add).producer)
    ensures SameWords(s, Produce(s, step, add))
  {
    match step
    case Delta(text, goesOn) => DeltaLeaves(s, text, goesOn, add);
    case StreamEnds(ok) => StreamEndLeaves(s, ok);
    case TakeEarly(goesOn) => FailureLeaves(s.(early := s.posted, posted := None), goesOn);
    case FailAgain(goesOn) => FailureLeaves(s, goesOn);
    case NoticeCancel(goesOn) => FailureLeaves(s, goesOn);
    case _ =>
  }

  lemma StaysWithin(s: State, next: State, limits: Limits)
    requires ReplyFits(s, limits) && WordsFit(next, limits) && (TextMatters(next.producer) || SameWords(s, next))
    ensures ReplyFits(next, limits)
  {
    if TextMatters(next.producer) {
      FittingIsWithin(next.producer, next.heard, next.pending, next.enqueued, next.lost, limits);
    }
  }

  lemma AwaitCompletes(s: State, add: Add, limits: Limits)
    requires Invariant(s, limits) && Enabled(s, Await)
    ensures CompletedFits(Produce(s, Await, add), limits)
  {
    var next, all := Produce(s, Await, add), Segments(s.heard, limits);
    if next.producer.exit.Completed? {
      assert s.posted == Some(Fine) && Drained(s) && !s.lost;
      assert s.received + [] == s.received && all[..|all|] == all;
    }
  }

  lemma OnlyAwaitCompletes(s: State, step: Step, add: Add)
    requires Enabled(s, step) && !OfConsumer(step) && !OfAnyone(step) && !step.Await?
    ensures Produce(s, step, add).producer != Exited(Completed)
  {
    match step
    case Delta(_, _) =>
    case StreamEnds(_) =>
    case Send =>
    case TakeEarly(_) =>
    case FailAgain(_) =>
    case NoticeCancel(_) =>
    case _ =>
  }

  lemma ProducerKeepsInvariant(s: State, step: Step, add: Add, limits: Limits)
    requires add == SegmenterOf(limits) && limits.Valid()
    requires Invariant(s, limits) && Enabled(s, step) && !OfConsumer(step) && !OfAnyone(step)
    ensures Invariant(Next(s, step, add), limits)
  {
    ProducerKeepsControl(s, step, add);
    ProducerFitsWords(s, step, add, limits);
    var next := Produce(s, step, add);
    if !TextMatters(next.producer) {
      LeavingKeepsText(s, step, add);
    }
    StaysWithin(s, next, limits);
    if step.Await? {
      AwaitCompletes(s, add, limits);
    } else {
      OnlyAwaitCompletes(s, step, add);
    }
  }

  lemma StepKeepsInvariant(s: State, step: Step, add: Add, limits: Limits)
    requires add == SegmenterOf(limits) && limits.Valid()
    requires Invariant(s, limits) && Enabled(s, step)
    ensures Invariant(Next(s, step, add), limits)
  {
    if OfConsumer(step) || OfAnyone(step) {
      OthersKeepText(s, step, add);
      SameTextFits(s, Next(s, step, add), limits);
      if OfConsumer(step) {
        ConsumerKeepsControl(s, step);
      }
    } else {
      ProducerKeepsInvariant(s, step, add, limits);
    }
  }

  lemma {:induction false} InvariantHolds(run: seq<Step>, limits: Limits)
    requires limits.Valid()
    ensures Invariant(After(run, limits), limits)
  {
    if run != [] {
      InvariantHolds(run[..|run| - 1], limits);
      var s, step := After(run[..|run| - 1], limits), run[|run| - 1];
      if Enabled(s, step) {
        StepKeepsInvariant(s, step, SegmenterOf(limits), limits);
      }
    }
  }

  lemma ControlHolds(run: seq<Step>, limits: Limits)
    requires limits.Valid()
    ensures ControlFits(After(run, limits))
  {
    InvariantHolds(run, limits);
  }

  // ---- What it means, in every interleaving ----

  /**
   The consumer hears exactly what was enqueued, in order, at most eight segments behind, and speaks an initial part
   of it. What was enqueued are segments of the text that reached the segmenter, in order, and the first of them
   unless the model went on after a failed callback; that text is the whole reply unless the connection broke.
   */
  lemma ChannelIsFaithful(run: seq<Step>, limits: Limits)
    requires limits.Valid()
    ensures var s := After(run, limits);
            && s.received + s.buffer == s.enqueued && |s.buffer| <= 8 && s.spoken <= s.received
            && InOrder(s.enqueued, Segments(s.heard, limits))
            && (!s.lost ==> s.enqueued <= Segments(s.heard, limits))
            && (s.lost ==> s.early.Some? || s.cancelled)
            && (!s.broken ==> s.heard == s.reply)
  {
    InvariantHolds(run, limits);
  }

  /**
   A segment about to be enqueued, or taken from the channel, is trimmed and not blank; so trimming it once more and
   skipping blanks, as both goroutines do, never has an effect and is left out of the steps.
   */
  lemma TrimmingAgainIsIdle(run: seq<Step>, limits: Limits, segment: string)
    requires limits.Valid()
    requires var s := After(run, limits);
             segment in s.enqueued || (s.producer.Enqueueing? && segment in s.producer.rest)
    ensures Trim(segment) == segment != ""
  {
    InvariantHolds(run, limits);
    var s := After(run, limits);
    HandledSegments(s, limits);
    SegmentsAreSpeakable(s.heard, limits);
    TrimIdempotent(segment);
  }

  lemma HandledSegments(s: State, limits: Limits)
    requires ReplyFits(s, limits)
    ensures forall segment :: segment in s.enqueued ==> segment in Segments(s.heard, limits)
    ensures s.producer.Enqueueing? ==> forall segment :: segment in s.producer.rest ==> segment in Segments(s.heard, limits)
  {
    InOrderAreThere(s.enqueued, Segments(s.heard, limits));
    if s.producer.Enqueueing? && !s.producer.flushing {
      var cut := Feed(START, s.heard, limits).segments;
      assert cut <= Segments(s.heard, limits);
      assert forall segment :: segment in s.producer.rest ==> segment in cut;
    }
  }

  /**
   A completed response has spoken exactly the segments of its whole reply, in order, whether or not its model heeds
   a failed callback: going on after one never leads to completion.
   */
  lemma CompletedSpeaksTheWholeReply(run: seq<Step>, limits: Limits)
    requires limits.Valid() && After(run, limits).producer == Exited(Completed)
    ensures var s := After(run, limits);
            s.spoken == Segments(s.reply, limits) && s.spoken != [] && s.chunks >= |s.spoken|
  {
    InvariantHolds(run, limits);
    NoSegmentIffBlank(After(run, limits).reply, limits);
  }

  /**
   A result that arrives while segments are being enqueued is always an error; so neither of the two places that make
   up the error "stopped before accepting text" is ever reached.
   */
  lemma EarlyResultIsAnError(run: seq<Step>, limits: Limits)
    requires limits.Valid() && After(run, limits).producer.Enqueueing?
    ensures var s := After(run, limits);
            && (s.posted.Some? ==> s.posted.value.Failing? && s.early.None?)
            && (s.early.Some? ==> s.early.value.Failing?)
  {
    InvariantHolds(run, limits);
  }

  /**
   When the reply has been announced it is not blank, all of it has reached the segmenter, and a synthesis that ends
   without error brought audio and has spoken everything that was not passed over.
   */
  lemma AwaitedResultHasAudio(run: seq<Step>, limits: Limits)
    requires limits.Valid() && Enabled(After(run, limits), Await)
    ensures var s := After(run, limits);
            && Trim(s.reply) != "" && s.heard == s.reply
            && (ResultOf(s).Fine? ==> s.spoken == s.enqueued)
            && (ResultOf(s).Fine? && !s.lost ==> s.chunks > 0 && s.spoken == Segments(s.reply, limits))
  {
    InvariantHolds(run, limits);
    FineResultHasAudio(After(run, limits), limits);
  }

  lemma FineResultHasAudio(s: State, limits: Limits)
    requires Invariant(s, limits) && limits.Valid() && Enabled(s, Await)
    ensures ResultOf(s).Fine? ==> s.spoken == s.enqueued
    ensures ResultOf(s).Fine? && !s.lost ==> s.chunks > 0 && s.spoken == Segments(s.reply, limits)
  {
    NoSegmentIffBlank(s.reply, limits);
    var all := Segments(s.reply, limits);
    assert s.received + [] == s.received && all[..|all|] == all;
  }

  /**
   So the status of a response says only whether it was cancelled and, if not, whether the synthesis failed; a result
   without an error never turns into a failure.
   */
  lemma StatusFollowsResult(run: seq<Step>, limits: Limits)
    requires limits.Valid() && Enabled(After(run, limits), Await)
    ensures var s := After(run, limits);
            ExitOf(s, ResultOf(s)) == if s.cancelled then Cancelled else if ResultOf(s).Fine? then Completed else Failed
  {
    AwaitedResultHasAudio(run, limits);
    InvariantHolds(run, limits);
  }

  /** What each way of returning says about the moment of returning. */
  ghost predicate ExitFits(s: State, exit: Exit) {
    match exit
    case Completed => !s.cancelled && (s.early.Some? || s.posted.Some?) && ResultOf(s).Fine?
    case Cancelled => s.cancelled
    case Failed => !s.cancelled
    case FlushFailed =>
      s.producer.Enqueueing? && s.producer.flushing && (s.early.Some? || s.posted.Some? || s.cancelled)
    case DoneUnsent => s.broken || Trim(s.reply) == ""
  }

  lemma DeltaStays(s: State, text: string, goesOn: bool, add: Add)
    requires !s.producer.Exited?
    ensures !OnDelta(s, text, goesOn, add).producer.Exited? && SameTalk(s, OnDelta(s, text, goesOn, add))
  {
  }

  lemma StreamEndStays(s: State, ok: bool)
    requires !s.producer.Exited?
    ensures !OnStreamEnds(s, ok).producer.Exited? && SameTalk(s, OnStreamEnds(s, ok))
  {
  }

  lemma FailureTalks(s: State, goesOn: bool)
    requires s.producer.Enqueueing?
    ensures var next := EnqueueFails(s, goesOn);
            SameTalk(s, next) && (next.producer.Exited? ==> next.producer.exit == FlushFailed && s.producer.flushing)
  {
  }

  lemma AnnounceTalks(s: State)
    requires s.producer.Announcing?
    ensures SameTalk(s, OnAnnounce(s))
    ensures OnAnnounce(s).producer.Exited? ==> ExitFits(s, OnAnnounce(s).producer.exit)
  {
  }

  lemma AwaitTalks(s: State, add: Add)
    requires Enabled(s, Await)
    ensures SameTalk(s, Produce(s, Await, add)) && ExitFits(s, Produce(s, Await, add).producer.exit)
  {
  }

  lemma SendTalks(s: State)
    requires InEnqueue(s)
    ensures SameTalk(s, OnSend(s)) && !OnSend(s).producer.Exited?
  {
  }

  lemma EndTalks(s: State, step: Step, add: Add)
    requires Enabled(s, step) && (step.EnqueueEnds? || step.CancelSpeech? || step.CloseSegments?)
    ensures SameTalk(s, Produce(s, step, add)) && !Produce(s, step, add).producer.Exited?
  {
  }

  lemma CloseTalks(s: State, add: Add)
    requires Enabled(s, CloseAborted)
    ensures SameTalk(s, Produce(s, CloseAborted, add)) && ExitFits(s, Produce(s, CloseAborted, add).producer.exit)
  {
  }

  lemma ProducerTalks(s: State, step: Step, add: Add)
    requires Enabled(s, step) && !OfConsumer(step) && !OfAnyone(step)
    ensures var next := Produce(s, step, add);
            SameTalk(s, next) && (next.producer.Exited? ==> ExitFits(s, next.producer.exit))
  {
    match step
    case Delta(text, goesOn) => DeltaStays(s, text, goesOn, add);
    case StreamEnds(ok) => StreamEndStays(s, ok);
    case Send => SendTalks(s);
    case TakeEarly(goesOn) => FailureTalks(s.(early := s.posted, posted := None), goesOn);
    case FailAgain(goesOn) => FailureTalks(s, goesOn);
    case NoticeCancel(goesOn) => FailureTalks(s, goesOn);
    case CloseAborted => CloseTalks(s, add);
    case Announce => AnnounceTalks(s);
    case Await => AwaitTalks(s, add);
    case _ => EndTalks(s, step, add);
  }

  /** Nothing changes in what the consumer does or has done. */
  ghost predicate SameTalk(s: State, t: State) {
    t.consumer == s.consumer && t.spoken == s.spoken && t.chunks == s.chunks && (Stopped(s) ==> Stopped(t))
  }

  /** The response has been cancelled, or its speech alone. */
  predicate Stopped(s: State) {
    s.cancelled || s.ttsCancelled
  }

  /**
   The exit says what happened: cancelled if and only if the context was, where the channel is closed, and completed
   only on a result without error; llm.done is missing only for a blank reply or a broken connection.
   */
  lemma ExitSaysWhy(run: seq<Step>, step: Step, limits: Limits)
    requires !After(run, limits).producer.Exited? && After(run + [step], limits).producer.Exited?
    ensures ExitFits(After(run, limits), After(run + [step], limits).producer.exit)
  {
    AfterSnoc(run, step, limits);
    var s := After(run, limits);
    if OfConsumer(step) || OfAnyone(step) {
      OthersKeepText(s, step, SegmenterOf(limits));
    } else {
      ProducerTalks(s, step, SegmenterOf(limits));
    }
  }

  /** The model's callback fails at this step, and the model does not go on, or the stream itself fails. */
  predicate Gives(s: State, step: Step) {
    match step
    case Delta(text, goesOn) => (text == "" || s.broken) && !goesOn
    case StreamEnds(ok) => !ok
    case TakeEarly(goesOn) => !s.producer.Enqueueing? || (!s.producer.flushing && !goesOn)
    case FailAgain(goesOn) => !s.producer.Enqueueing? || (!s.producer.flushing && !goesOn)
    case NoticeCancel(goesOn) => !s.producer.Enqueueing? || (!s.producer.flushing && !goesOn)
    case _ => false
  }

  lemma AbortsByDelta(s: State, text: string, goesOn: bool, add: Add)
    ensures OnDelta(s, text, goesOn, add).producer.Aborting? <==>
              ((text == "" || s.broken) && !goesOn) || (s.producer.Aborting? && (text == "" || s.broken))
  {
  }

  lemma AbortsByFailure(s: State, goesOn: bool)
    requires s.producer.Enqueueing?
    ensures EnqueueFails(s, goesOn).producer.Aborting? <==> !s.producer.flushing && !goesOn
    ensures EnqueueFails(s, goesOn).producer.Streaming? <==> !s.producer.flushing && goesOn
  {
  }

  lemma AbortsByStep(s: State, step: Step, add: Add)
    requires Enabled(s, step) && !OfConsumer(step) && !OfAnyone(step) && !s.producer.Aborting?
    ensures Produce(s, step, add).producer.Aborting? <==> Gives(s, step)
  {
    match step
    case Delta(text, goesOn) => AbortsByDelta(s, text, goesOn, add);
    case StreamEnds(_) =>
    case TakeEarly(goesOn) => AbortsByFailure(s.(early := s.posted, posted := None), goesOn);
    case FailAgain(goesOn) => AbortsByFailure(s, goesOn);
    case NoticeCancel(goesOn) => AbortsByFailure(s, goesOn);
    case Await =>
    case _ =>
  }

  /**
   The response is given up exactly when the stream of the model fails, or its callback does and it does not go on;
   then the speech is cancelled, the channel closed, and only then does runResponse return.
   */
  lemma GivenUpIff(run: seq<Step>, step: Step, limits: Limits)
    requires Enabled(After(run, limits), step) && !After(run, limits).producer.Aborting?
    ensures After(run + [step], limits).producer.Aborting? <==> Gives(After(run, limits), step)
  {
    AfterSnoc(run, step, limits);
    var s := After(run, limits);
    if OfConsumer(step) || OfAnyone(step) {
      OthersKeepText(s, step, SegmenterOf(limits));
    } else {
      AbortsByStep(s, step, SegmenterOf(limits));
    }
  }

  lemma GivingUpCloses(run: seq<Step>, limits: Limits)
    requires After(run, limits).producer.Aborting?
    ensures var s, t := After(run, limits), After(run + [CancelSpeech] + [CloseAborted], limits);
            t.producer == Exited(if s.cancelled then Cancelled else Failed) && t.closed && t.ttsCancelled
  {
    AfterSnoc(run, CancelSpeech, limits);
    AfterSnoc(run + [CancelSpeech], CloseAborted, limits);
  }

  // ---- Cancelling ----

  /** What may still become of the speech of a stopped response: at most the segment being spoken is finished. */
  ghost predicate Quiets(s: State, t: State) {
    && Stopped(t)
    && (t.consumer.Speaking? ==> s.consumer == t.consumer && t.spoken == s.spoken && t.chunks == s.chunks)
    && (t.spoken != s.spoken ==> s.consumer.Speaking? && t.spoken == s.spoken + [s.consumer.segment])
    && (t.chunks != s.chunks ==> s.consumer.Speaking?)
  }

  lemma StaysQuiet(s: State, t: State, step: Step, add: Add)
    requires Quiets(s, t) && Enabled(t, step) && (OfConsumer(step) || OfAnyone(step))
    ensures Quiets(s, Next(t, step, add))
  {
    match step
    case Synthesised(n, ok) =>
    case _ =>
  }

  /**
   Once a response has been cancelled, whatever comes: if nothing is being spoken nothing ever will be, and not a frame
   is sent; if a segment is being spoken, that one may be finished, and no other is begun.
   */
  lemma {:induction false} CancelStopsSpeech(run: seq<Step>, more: seq<Step>, limits: Limits)
    requires Stopped(After(run, limits))
    ensures Quiets(After(run, limits), After(run + more, limits))
    decreases |more|
  {
    if more == [] {
      assert run + more == run;
    } else {
      var n := |more| - 1;
      CancelStopsSpeech(run, more[..n], limits);
      assert run + more == run + more[..n] + [more[n]];
      AfterSnoc(run + more[..n], more[n], limits);
      var t := After(run + more[..n], limits);
      if !Enabled(t, more[n]) {
      } else if OfConsumer(more[n]) || OfAnyone(more[n]) {
        StaysQuiet(After(run, limits), t, more[n], SegmenterOf(limits));
      } else {
        ProducerTalks(t, more[n], SegmenterOf(limits));
      }
    }
  }

  /** And only that: a segment that has been taken is spoken unless its response has been stopped. */
  lemma TakenSegmentsAreSpoken(run: seq<Step>, limits: Limits)
    requires After(run, limits).consumer.Got?
    ensures var s, t := After(run, limits), After(run + [CheckContext], limits);
            t.consumer == if Stopped(s) then Returning(Failing(RealtimeTTS.ContextCancelled)) else Speaking(s.consumer.segment)
  {
    Checked(After(run, limits), SegmenterOf(limits));
    AfterSnoc(run, CheckContext, limits);
  }

  lemma Checked(s: State, add: Add)
    requires s.consumer.Got?
    ensures Enabled(s, CheckContext)
    ensures Next(s, CheckContext, add).consumer
            == if Stopped(s) then Returning(Failing(RealtimeTTS.ContextCancelled)) else Speaking(s.consumer.segment)
  {
  }

  // ---- Every reply can be spoken ----

  /** All is well, and the consumer waits for the next segment. */
  ghost predicate Calm(s: State) {
    && s.consumer.Ranging? && s.buffer == [] && !s.closed && s.posted.None? && s.early.None?
    && !s.cancelled && !s.ttsCancelled && !s.broken && s.heard == s.reply
  }

  /** The step that a state takes when all is well. */
  lemma Takes(run: seq<Step>, step: Step, limits: Limits)
    requires Enabled(After(run, limits), step)
    ensures After(run + [step], limits) == Next(After(run, limits), step, SegmenterOf(limits))
  {
    AfterSnoc(run, step, limits);
  }

  lemma OneSegment(run: seq<Step>, limits: Limits) returns (longer: seq<Step>)
    requires Calm(After(run, limits)) && InEnqueue(After(run, limits))
    ensures var s, t := After(run, limits), After(longer, limits);
            && Calm(t) && t.reply == s.reply && t.pending == s.pending
            && t.producer == Enqueueing(s.producer.rest[1..], s.producer.flushing)
  {
    var s := After(run, limits);
    Takes(run, Send, limits);
    var sent := run + [Send];
    assert After(sent, limits) == OnSend(s);
    Takes(sent, Receive, limits);
    var received := sent + [Receive];
    Takes(received, CheckContext, limits);
    var checked := received + [CheckContext];
    Takes(checked, Synthesised(1, true), limits);
    longer := checked + [Synthesised(1, true)];
  }

  lemma {:induction false} AllSegments(run: seq<Step>, n: nat, limits: Limits) returns (longer: seq<Step>)
    requires Calm(After(run, limits)) && After(run, limits).producer.Enqueueing?
    requires n == |After(run, limits).producer.rest|
    ensures var s, t := After(run, limits), After(longer, limits);
            Calm(t) && t.reply == s.reply && t.pending == s.pending && t.producer == Enqueueing([], s.producer.flushing)
    decreases n
  {
    if n == 0 {
      longer := run;
    } else {
      longer := OneSegment(run, limits);
      longer := AllSegments(longer, n - 1, limits);
    }
  }

  lemma OneDelta(run: seq<Step>, text: string, limits: Limits) returns (longer: seq<Step>)
    requires Calm(After(run, limits)) && After(run, limits).producer.Streaming? && text != ""
    ensures var s, t := After(run, limits), After(longer, limits);
            Calm(t) && t.producer.Streaming? && t.reply == s.reply + text
  {
    Takes(run, Delta(text, false), limits);
    var heard := run + [Delta(text, false)];
    longer := AllSegments(heard, |After(heard, limits).producer.rest|, limits);
    Takes(longer, EnqueueEnds, limits);
    longer := longer + [EnqueueEnds];
  }

  lemma {:induction false} AllDeltas(deltas: seq<string>, limits: Limits) returns (run: seq<Step>)
    requires forall k :: 0 <= k < |deltas| ==> deltas[k] != ""
    ensures Calm(After(run, limits)) && After(run, limits).producer.Streaming?
    ensures After(run, limits).reply == Flatten(deltas)
  {
    if deltas == [] {
      run := [];
    } else {
      var n := |deltas| - 1;
      run := AllDeltas(deltas[..n], limits);
      run := OneDelta(run, deltas[n], limits);
      FlattenSnoc(deltas[..n], deltas[n]);
      assert deltas == deltas[..n] + [deltas[n]];
    }
  }

  lemma AnnouncesWell(run: seq<Step>, limits: Limits) returns (longer: seq<Step>)
    requires Calm(After(run, limits)) && After(run, limits).producer == Enqueueing([], true)
    requires Trim(After(run, limits).reply) != ""
    ensures var s, t := After(run, limits), After(longer, limits);
            Calm(t) && t.reply == s.reply && t.producer.Waiting?
  {
    Takes(run, EnqueueEnds, limits);
    longer := run + [EnqueueEnds];
    WellAnnounced(After(longer, limits));
    Takes(longer, Announce, limits);
    longer := longer + [Announce];
  }

  lemma WellAnnounced(s: State)
    requires Calm(s) && s.producer.Announcing? && Trim(s.reply) != ""
    ensures Calm(OnAnnounce(s)) && OnAnnounce(s).producer.Waiting? && OnAnnounce(s).reply == s.reply
  {
  }

  lemma EndsWell(run: seq<Step>, limits: Limits) returns (longer: seq<Step>)
    requires Calm(After(run, limits)) && After(run, limits).producer.Waiting?
    ensures var s, t := After(run, limits), After(longer, limits);
            t.reply == s.reply && Enabled(t, Await) && !t.cancelled && ResultOf(t).Fine?
  {
    Takes(run, CloseSegments, limits);
    var closed := run + [CloseSegments];
    Takes(closed, EndOfRange, limits);
    var ended := closed + [EndOfRange];
    Takes(ended, Post, limits);
    longer := ended + [Post];
  }

  /** However a reply that is not blank is cut into deltas, there is a run that speaks all of it and completes. */
  lemma EveryReplyCanBeSpoken(deltas: seq<string>, limits: Limits) returns (run: seq<Step>)
    requires limits.Valid() && Trim(Flatten(deltas)) != ""
    requires forall k :: 0 <= k < |deltas| ==> deltas[k] != ""
    ensures var s := After(run, limits);
            && s.producer == Exited(Completed) && s.reply == Flatten(deltas)
            && s.spoken == Segments(Flatten(deltas), limits)
  {
    run := AllDeltas(deltas, limits);
    Takes(run, StreamEnds(true), limits);
    run := run + [StreamEnds(true)];
    run := AllSegments(run, |After(run, limits).producer.rest|, limits);
    run := AnnouncesWell(run, limits);
    run := EndsWell(run, limits);
    StatusFollowsResult(run, limits);
    Takes(run, Await, limits);
    run := run + [Await];
    CompletedSpeaksTheWholeReply(run, limits);
  }

  // ---- Progress ----

  /**
   A segment can be put on the channel exactly while it holds fewer than eight; the other two ways of the select are
   open exactly when a result has come and when the response is cancelled; and once a result has been taken early every
   segment fails. The model may bring a delta or end at any time it is talking, and anyone may cancel at any time.
   */
  lemma ChoicesOfTheSelect(run: seq<Step>, limits: Limits, goesOn: bool)
    requires limits.Valid() && InEnqueue(After(run, limits))
    ensures var s := After(run, limits);
            && (Enabled(s, Send) <==> s.early.None? && |s.buffer| < 8)
            && (Enabled(s, TakeEarly(goesOn)) <==> s.early.None? && s.posted.Some?)
            && (Enabled(s, NoticeCancel(goesOn)) <==> s.early.None? && s.cancelled)
            && (Enabled(s, FailAgain(goesOn)) <==> s.early.Some?)
  {
    ControlHolds(run, limits);
  }

  lemma ModelAndCancelAreFree(s: State, text: string, choice: bool, add: Add)
    ensures s.producer.Streaming? ==> Enabled(s, Delta(text, choice)) && Enabled(s, StreamEnds(choice))
    ensures Enabled(s, Cancel) && Next(s, Cancel, add) == s.(cancelled := true)
    ensures Enabled(s, Break) && Next(s, Break, add) == s.(broken := true)
  {
  }

  /** No step of the producer is possible, though it neither waits for the model or a write nor has returned. */
  predicate Blocked(s: State) {
    || (InEnqueue(s) && s.early.None? && !Enabled(s, Send) && s.posted.None? && !s.cancelled)
    || (s.producer.Waiting? && !Enabled(s, CloseSegments) && !Enabled(s, Await))
  }

  /** The consumer waits on an empty channel that is not closed. */
  predicate Starved(s: State) {
    s.consumer.Ranging? && s.buffer == [] && !s.closed
  }

  predicate ConsumerCanStep(s: State) {
    Enabled(s, Receive) || Enabled(s, EndOfRange) || Enabled(s, CheckContext) || s.consumer.Speaking? || Enabled(s, Post)
  }

  /** How many steps the consumer can take at most before it is gone or waits for more. */
  function Work(s: State): nat {
    4 * |s.buffer| + match s.consumer
                     case Ranging => 2
                     case Got(_) => 5
                     case Speaking(_) => 4
                     case Returning(_) => 1
                     case Gone => 0
  }

  lemma ConsumerUsesUpWork(s: State, step: Step)
    requires OfConsumer(step) && Enabled(s, step)
    ensures Work(Consume(s, step)) < Work(s)
    ensures Consume(s, step).producer == s.producer && Consume(s, step).closed == s.closed
  {
  }

  lemma BlockedNeedsTheConsumer(s: State)
    requires ControlFits(s) && Blocked(s)
    ensures !s.consumer.Gone? && ConsumerCanStep(s)
  {
  }

  /**
   The producer never waits for a consumer that has gone: whenever it is blocked the consumer has a step to take,
   and each step of the consumer uses up work (ConsumerUsesUpWork), so after finitely many the producer goes on.
   */
  lemma ProducerIsNeverStranded(run: seq<Step>, limits: Limits)
    requires limits.Valid() && Blocked(After(run, limits))
    ensures !After(run, limits).consumer.Gone? && ConsumerCanStep(After(run, limits))
  {
    ControlHolds(run, limits);
    BlockedNeedsTheConsumer(After(run, limits));
  }

  // ---- The consumer that waits for ever ----

  /** runResponse has returned, and the consumer waits on a channel that nobody will write to or close. */
  ghost predicate Stranded(s: State) {
    s.producer.Exited? && Starved(s)
  }

  lemma StrandedForEver(s: State, step: Step, add: Add)
    requires Stranded(s) && Enabled(s, step)
    ensures Stranded(Next(s, step, add)) && OfAnyone(step)
  {
  }

  lemma StrandedOrNot(s: State)
    requires ControlFits(s) && s.producer.Exited?
    ensures Stranded(s) || s.consumer.Gone? || ConsumerCanStep(s)
  {
  }

  /**
   After the producer has returned the consumer still ends, unless it is stranded; and it can be stranded only by an
   exit that leaves the channel open: llm.done could not be sent, or the last segments could not be enqueued.
   */
  lemma ConsumerEndsUnlessStranded(run: seq<Step>, limits: Limits)
    requires limits.Valid() && After(run, limits).producer.Exited?
    ensures var s := After(run, limits);
            && (Stranded(s) || s.consumer.Gone? || ConsumerCanStep(s))
            && (s.closed <==> !LeavesOpen(s.producer.exit))
            && (s.closed ==> !Stranded(s))
  {
    ControlHolds(run, limits);
    StrandedOrNot(After(run, limits));
  }

  predicate LeavesOpen(exit: Exit) {
    exit.FlushFailed? || exit.DoneUnsent?
  }

  /** The producer has returned and left the channel open. */
  predicate LeftOpen(s: State) {
    s.producer.Exited? && LeavesOpen(s.producer.exit)
  }

  /** The consumer has taken all there will ever be, and has not yet met an error. */
  predicate WillWait(s: State) {
    s.received == s.enqueued && (s.consumer.Ranging? || s.consumer.Speaking?)
  }

  lemma StarvedIff(s: State)
    requires ControlFits(s) && !s.closed
    ensures Starved(s) <==> s.consumer.Ranging? && s.received == s.enqueued
  {
    assert |s.received + s.buffer| == |s.received| + |s.buffer|;
    assert s.received + [] == s.received;
  }

  /** Nothing more is enqueued, and a consumer that does not hold the last segment stops at the next look at the context. */
  lemma StaysLeftOpen(s: State, step: Step, add: Add)
    requires ControlFits(s) && LeftOpen(s) && Enabled(s, step)
    ensures LeftOpen(Next(s, step, add)) && (!WillWait(s) ==> !WillWait(Next(s, step, add)))
  {
    assert |s.received + s.buffer| == |s.received| + |s.buffer|;
  }

  lemma {:induction false} NeverWaits(run: seq<Step>, more: seq<Step>, limits: Limits)
    requires limits.Valid() && LeftOpen(After(run, limits)) && !WillWait(After(run, limits))
    ensures LeftOpen(After(run + more, limits)) && !WillWait(After(run + more, limits))
    decreases |more|
  {
    if more == [] {
      assert run + more == run;
    } else {
      var n := |more| - 1;
      NeverWaits(run, more[..n], limits);
      assert run + more == run + more[..n] + [more[n]];
      AfterSnoc(run + more[..n], more[n], limits);
      ControlHolds(run + more[..n], limits);
      var s := After(run + more[..n], limits);
      if Enabled(s, more[n]) {
        StaysLeftOpen(s, more[n], SegmenterOf(limits));
      }
    }
  }

  /** Such a consumer is never stranded: after any further steps it is gone or has a step of its own to take. */
  lemma OtherwiseTheConsumerEnds(run: seq<Step>, more: seq<Step>, limits: Limits)
    requires limits.Valid() && LeftOpen(After(run, limits)) && !WillWait(After(run, limits))
    ensures var s := After(run + more, limits); !Stranded(s) && (s.consumer.Gone? || ConsumerCanStep(s))
  {
    NeverWaits(run, more, limits);
    ControlHolds(run + more, limits);
    StarvedIff(After(run + more, limits));
    StrandedOrNot(After(run + more, limits));
  }

  /** One that waits already is stranded, whatever comes. */
  lemma {:induction false} WaitingIsStranded(run: seq<Step>, more: seq<Step>, limits: Limits)
    requires limits.Valid() && LeftOpen(After(run, limits)) && WillWait(After(run, limits))
    requires After(run, limits).consumer.Ranging?
    ensures Stranded(After(run + more, limits))
    decreases |more|
  {
    if more == [] {
      assert run + more == run;
      ControlHolds(run, limits);
      StarvedIff(After(run, limits));
    } else {
      var n := |more| - 1;
      WaitingIsStranded(run, more[..n], limits);
      assert run + more == run + more[..n] + [more[n]];
      AfterSnoc(run + more[..n], more[n], limits);
      var s := After(run + more[..n], limits);
      if Enabled(s, more[n]) {
        StrandedForEver(s, more[n], SegmenterOf(limits));
      }
    }
  }

  lemma LastSynthesis(s: State, n: nat, ok: bool)
    requires ControlFits(s) && LeftOpen(s) && WillWait(s) && s.consumer.Speaking?
    ensures Stranded(Consume(s, Synthesised(n, ok))) <==> ok && n > 0
  {
    assert |s.received + s.buffer| == |s.received| + |s.buffer|;
  }

  /** For one that speaks the last segment the synthesis decides: it is stranded if and only if there is audio and no error. */
  lemma SynthesisDecides(run: seq<Step>, n: nat, ok: bool, limits: Limits)
    requires limits.Valid() && LeftOpen(After(run, limits)) && WillWait(After(run, limits))
    requires After(run, limits).consumer.Speaking?
    ensures Stranded(After(run + [Synthesised(n, ok)], limits)) <==> ok && n > 0
  {
    ControlHolds(run, limits);
    LastSynthesis(After(run, limits), n, ok);
    AfterSnoc(run, Synthesised(n, ok), limits);
  }

  /**
   At any moment after an exit that leaves the channel open, some continuation strands the consumer if and only if it
   has taken everything that was enqueued and is waiting or still speaking.
   */
  lemma OpenExitStrandsIff(run: seq<Step>, limits: Limits)
    requires limits.Valid() && LeftOpen(After(run, limits))
    ensures (exists more: seq<Step> :: Stranded(After(run + more, limits))) <==> WillWait(After(run, limits))
  {
    var s := After(run, limits);
    if !WillWait(s) {
      forall more: seq<Step> ensures !Stranded(After(run + more, limits)) {
        OtherwiseTheConsumerEnds(run, more, limits);
      }
    } else if s.consumer.Ranging? {
      WaitingIsStranded(run, [], limits);
    } else {
      SynthesisDecides(run, 1, true, limits);
    }
  }

  // ---- Blank replies ----

  lemma BlankReplyIsUnheard(s: State, limits: Limits)
    requires Invariant(s, limits) && limits.Valid() && s.producer.Announcing? && Trim(s.reply) == ""
    ensures Starved(s)
  {
    PartOfBlank(s.heard, s.reply);
    NoSegmentIffBlank(s.heard, limits);
    assert s.enqueued == [] && |s.received + s.buffer| == |s.received| + |s.buffer|;
  }

  lemma BlankReplyStarves(run: seq<Step>, limits: Limits)
    requires limits.Valid() && After(run, limits).producer.Announcing? && Trim(After(run, limits).reply) == ""
    ensures Starved(After(run, limits))
  {
    InvariantHolds(run, limits);
    BlankReplyIsUnheard(After(run, limits), limits);
  }

  lemma Announced(s: State, add: Add)
    requires s.producer.Announcing?
    ensures Enabled(s, Announce) && Next(s, Announce, add) == OnAnnounce(s)
  {
  }

  lemma BlankAnnouncement(s: State)
    requires s.producer.Announcing? && Trim(s.reply) == "" && Starved(s)
    ensures OnAnnounce(s).producer == Exited(DoneUnsent) && Stranded(OnAnnounce(s))
  {
  }

  /**
   A blank reply is never announced, since llm.done may not be empty: whatever the network does and whoever cancels,
   the response ends there without response.done, and its consumer, which has heard nothing, is stranded.
   */
  lemma BlankReplyStrandsTheConsumer(run: seq<Step>, limits: Limits)
    requires limits.Valid() && After(run, limits).producer.Announcing? && Trim(After(run, limits).reply) == ""
    ensures var s := After(run + [Announce], limits); s.producer == Exited(DoneUnsent) && Stranded(s)
  {
    BlankReplyStarves(run, limits);
    BlankAnnouncement(After(run, limits));
    Announced(After(run, limits), SegmenterOf(limits));
    Takes(run, Announce, limits);
  }

  lemma UnsentBefore(s: State, step: Step, add: Add)
    requires Enabled(s, step) && Next(s, step, add).producer == Exited(DoneUnsent)
    ensures Next(s, step, add).reply == s.reply
    ensures s.producer == Exited(DoneUnsent) || (s.producer.Announcing? && step == Announce)
  {
    if OfConsumer(step) {
      ConsumerKeepsText(s, step);
    } else if !OfAnyone(step) {
      UnsentByAnnouncement(s, step, add);
    }
  }

  lemma UnsentByAnnouncement(s: State, step: Step, add: Add)
    requires Enabled(s, step) && !OfConsumer(step) && !OfAnyone(step)
    requires Produce(s, step, add).producer == Exited(DoneUnsent)
    ensures Produce(s, step, add).reply == s.reply && step == Announce
  {
    match step
    case Delta(_, _) =>
    case StreamEnds(_) =>
    case Send =>
    case TakeEarly(_) =>
    case FailAgain(_) =>
    case NoticeCancel(_) =>
    case Await =>
    case _ =>
  }

  /** So every run that ends with a blank reply unannounced has its consumer waiting for ever. */
  lemma {:induction false} UnsentBlankReplyStrands(run: seq<Step>, limits: Limits)
    requires limits.Valid() && After(run, limits).producer == Exited(DoneUnsent) && Trim(After(run, limits).reply) == ""
    ensures Stranded(After(run, limits))
  {
    var before, step := run[..|run| - 1], run[|run| - 1];
    var s, add := After(before, limits), SegmenterOf(limits);
    if Enabled(s, step) {
      UnsentBefore(s, step, add);
      if s.producer.Exited? {
        UnsentBlankReplyStrands(before, limits);
        StrandedForEver(s, step, add);
      } else {
        BlankReplyStrandsTheConsumer(before, limits);
        assert run == before + [Announce];
      }
    } else {
      UnsentBlankReplyStrands(before, limits);
    }
  }

  /** And the response of a model that ends well with a blank reply has no other way to go. */
  lemma BlankReplyIsOnlyAnnounced(run: seq<Step>, step: Step, limits: Limits)
    requires Trim(After(run, limits).reply) == ""
    ensures After(run, limits).producer.Streaming? ==> After(run + [StreamEnds(true)], limits).producer.Announcing?
    ensures After(run, limits).producer.Announcing? && step != Announce ==>
              After(run + [step], limits).producer.Announcing? && After(run + [step], limits).reply == After(run, limits).reply
  {
    AfterSnoc(run, StreamEnds(true), limits);
    AfterSnoc(run, step, limits);
    var s, add := After(run, limits), SegmenterOf(limits);
    if Enabled(s, step) && s.producer.Announcing? && step != Announce {
      OthersKeepText(s, step, add);
    }
  }
}
