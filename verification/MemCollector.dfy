/** The Docker memory collector (internal/benchmark/util/mem_collector.go). */
module MemCollector {
  // One collecting goroutine, any number of callers, a one-slot error channel, a channel that is closed as a signal,
  // a cancel context and a wait group. Every step below is one atomic action of one goroutine; a run is any
  // interleaving of them.

  import opened Wrappers
  import opened Sequences

  const TWO_64: int := 0x1_0000_0000_0000_0000
  type uint64 = n: int | 0 <= n < 0x1_0000_0000_0000_0000

  type Error = string
  type CallerId = nat

  /** Where the collecting goroutine is. */
  datatype Pc =
    | CreatingClient
    | FindingContainer
    | OpeningStats
    | Decoding(received: bool)
    | Storing(usage: uint64, received: bool)
    | Signalling
    | Reporting(error: Error, closeAfter: bool)
    | ClosingAfterError
    | Returning
    | Done

  /** Where a caller is inside a call that takes more than one step. */
  datatype CallerPc = LoadingUsage | JoiningCollector | CheckingAfterJoin

  datatype Reply = Nil | Fault(error: Error) | Cancelled | Usage(bytes: uint64)
  datatype Call = WaitForFirstSample | GetMaxMemoryUsage | Stop
  datatype Answer = Answer(caller: CallerId, call: Call, reply: Reply)

  /** The last three fields record what has happened; no step looks at them. */
  datatype State = State(
    pc: Pc,
    errChan: Option<Error>,
    firstSampleClosed: bool,
    maxMemoryUsage: uint64,
    cancelled: bool,
    panicked: bool,
    callers: map<CallerId, CallerPc>,
    samples: seq<uint64>,
    sent: seq<Error>,
    answers: seq<Answer>)

  const INITIAL := State(CreatingClient, None, false, 0, false, false, map[], [], [], [])

  datatype Decoded =
    | Sample(usage: uint64, cache: uint64)
    | StreamEnded // io.EOF or an error naming a cancelled context
    | Broken(error: Error)

  datatype Action =
    | SetUp(failure: Option<Error>)
    | Decode(result: Decoded)
    | StoreMax
    | CloseFirstSample
    | SendError
    | WaitGroupDone
    | WaitReceivesError(caller: CallerId)
    | WaitSeesSignal(caller: CallerId)
    | WaitSeesCancel(caller: CallerId)
    | UsageReceivesError(caller: CallerId)
    | UsageFindsNoError(caller: CallerId)
    | UsageLoads(caller: CallerId)
    | StopCancels(caller: CallerId)
    | StopJoins(caller: CallerId)
    | StopReceivesError(caller: CallerId)
    | StopFindsNoError(caller: CallerId)

  /** The subtraction wraps around, as it does on Go's uint64. */
  function WithoutCache(usage: uint64, cache: uint64): uint64 {
    (usage - cache) % TWO_64
  }

  // ---- Steps of the collecting goroutine --------------------------------------------------------

  function SetUpStep(s: State, failure: Option<Error>): Option<State> {
    if !(s.pc.CreatingClient? || s.pc.FindingContainer? || s.pc.OpeningStats?) then None
    else if failure.Some? then Some(s.(pc := Reporting(failure.value, true)))
    else Some(s.(pc := match s.pc
                       case CreatingClient => FindingContainer
                       case FindingContainer => OpeningStats
                       case _ => Decoding(false)))
  }

  function DecodeStep(s: State, result: Decoded): Option<State> {
    if !s.pc.Decoding? then None
    else match result
      case Sample(usage, cache) =>
        var v := WithoutCache(usage, cache);
        Some(s.(pc := Storing(v, s.pc.received), samples := s.samples + [v]))
      case StreamEnded => Some(s.(pc := Returning))
      case Broken(e) => Some(s.(pc := Reporting(e, !s.pc.received)))
  }

  function StoreStep(s: State): Option<State> {
    if !s.pc.Storing? then None
    else
      var newMax := if s.pc.usage > s.maxMemoryUsage then s.pc.usage else s.maxMemoryUsage;
      Some(s.(maxMemoryUsage := newMax, pc := if s.pc.received then Decoding(true) else Signalling))
  }

  /** Closing a channel twice panics. */
  function CloseStep(s: State): Option<State> {
    if s.pc.Signalling? then
      Some(s.(firstSampleClosed := true, panicked := s.panicked || s.firstSampleClosed, pc := Decoding(true)))
    else if s.pc.ClosingAfterError? then
      Some(s.(firstSampleClosed := true, panicked := s.panicked || s.firstSampleClosed, pc := Returning))
    else None
  }

  /** A send on the one-slot channel waits while the slot is taken. */
  function SendStep(s: State): Option<State> {
    if !s.pc.Reporting? || s.errChan.Some? then None
    else Some(s.(errChan := Some(s.pc.error), sent := s.sent + [s.pc.error],
                 pc := if s.pc.closeAfter then ClosingAfterError else Returning))
  }

  // ---- Steps of the callers -----------------------------------------------------------------------

  function Reply1(s: State, caller: CallerId, call: Call, reply: Reply): State {
    s.(answers := s.answers + [Answer(caller, call, reply)], callers := map c | c in s.callers && c != caller :: s.callers[c])
  }

  /** A receive takes the error out of the slot. */
  function ReceiveError(s: State, caller: CallerId, call: Call): Option<State> {
    if s.errChan.None? then None
    else Some(Reply1(s.(errChan := None), caller, call, Fault(s.errChan.value)))
  }

  predicate At(s: State, caller: CallerId, pc: CallerPc) {
    caller in s.callers && s.callers[caller] == pc
  }

  function Step(s: State, a: Action): Option<State> {
    match a
    case SetUp(failure) => SetUpStep(s, failure)
    case Decode(result) => DecodeStep(s, result)
    case StoreMax => StoreStep(s)
    case CloseFirstSample => CloseStep(s)
    case SendError => SendStep(s)
    case WaitGroupDone => if s.pc.Returning? then Some(s.(pc := Done)) else None
    case WaitReceivesError(c) => if c in s.callers then None else ReceiveError(s, c, WaitForFirstSample)
    case WaitSeesSignal(c) =>
      if c in s.callers || !s.firstSampleClosed then None else Some(Reply1(s, c, WaitForFirstSample, Nil))
    case WaitSeesCancel(c) =>
      if c in s.callers || !s.cancelled then None else Some(Reply1(s, c, WaitForFirstSample, Cancelled))
    case UsageReceivesError(c) => if c in s.callers then None else ReceiveError(s, c, GetMaxMemoryUsage)
    case UsageFindsNoError(c) =>
      if c in s.callers || s.errChan.Some? then None else Some(s.(callers := s.callers[c := LoadingUsage]))
    case UsageLoads(c) =>
      if !At(s, c, LoadingUsage) then None else Some(Reply1(s, c, GetMaxMemoryUsage, Usage(s.maxMemoryUsage)))
    case StopCancels(c) =>
      if c in s.callers then None else Some(s.(cancelled := true, callers := s.callers[c := JoiningCollector]))
    case StopJoins(c) =>
      if !At(s, c, JoiningCollector) || !s.pc.Done? then None
      else Some(s.(callers := s.callers[c := CheckingAfterJoin]))
    case StopReceivesError(c) => if !At(s, c, CheckingAfterJoin) then None else ReceiveError(s, c, Stop)
    case StopFindsNoError(c) =>
      if !At(s, c, CheckingAfterJoin) || s.errChan.Some? then None else Some(Reply1(s, c, Stop, Nil))
  }

  /** The state after a run, or None when some action was not enabled. */
  function Exec(s: State, actions: seq<Action>): Option<State>
    decreases |actions|
  {
    if actions == [] then Some(s)
    else match Step(s, actions[0])
      case None => None
      case Some(t) => Exec(t, actions[1..])
  }

  ghost predicate Reachable(s: State) {
    exists actions :: Exec(INITIAL, actions) == Some(s)
  }

  // ---- What every run keeps ------------------------------------------------------------------------

  function Faults(answers: seq<Answer>): seq<Error> {
    if answers == [] then []
    else
      var last := answers[|answers| - 1];
      Faults(answers[..|answers| - 1]) + (if last.reply.Fault? then [last.reply.error] else [])
  }

  lemma FaultsSnoc(answers: seq<Answer>, r: Answer)
    ensures Faults(answers + [r]) == Faults(answers) + (if r.reply.Fault? then [r.reply.error] else [])
  {
    assert (answers + [r])[..|answers|] == answers;
  }

  function Waiting(errChan: Option<Error>): seq<Error> {
    if errChan.Some? then [errChan.value] else []
  }

  function MaxOf(samples: seq<uint64>): uint64 {
    if samples == [] then 0
    else
      var rest := MaxOf(samples[..|samples| - 1]);
      if samples[|samples| - 1] > rest then samples[|samples| - 1] else rest
  }

  /** The samples whose comparison with the running maximum has been made. */
  function Recorded(s: State): seq<uint64> {
    if s.pc.Storing? && s.samples != [] then s.samples[..|s.samples| - 1] else s.samples
  }

  /** Some call of Stop has returned. */
  ghost predicate StopReturned(answers: seq<Answer>) {
    exists k :: 0 <= k < |answers| && answers[k].call == Stop
  }

  /** What the place of the collecting goroutine tells about the channels. */
  ghost predicate PcInv(s: State) {
    match s.pc
    case CreatingClient => s.sent == [] && !s.firstSampleClosed && s.samples == []
    case FindingContainer => s.sent == [] && !s.firstSampleClosed && s.samples == []
    case OpeningStats => s.sent == [] && !s.firstSampleClosed && s.samples == []
    case Decoding(received) => s.sent == [] && s.firstSampleClosed == received && (s.samples != []) == received
    case Storing(usage, received) =>
      s.sent == [] && s.firstSampleClosed == received && s.samples != [] && s.samples[|s.samples| - 1] == usage &&
      (|s.samples| > 1) == received
    case Signalling => s.sent == [] && !s.firstSampleClosed && s.samples != []
    case Reporting(e, closeAfter) =>
      s.sent == [] && s.firstSampleClosed == !closeAfter && (s.samples != []) == !closeAfter
    case ClosingAfterError => |s.sent| == 1 && !s.firstSampleClosed && s.samples == []
    case Returning => |s.sent| <= 1 && s.firstSampleClosed == (s.samples != [] || s.sent != [])
    case Done => |s.sent| <= 1 && s.firstSampleClosed == (s.samples != [] || s.sent != [])
  }

  ghost predicate Inv(s: State) {
    && PcInv(s)
    && !s.panicked
    && Faults(s.answers) + Waiting(s.errChan) == s.sent
    && s.maxMemoryUsage == MaxOf(Recorded(s))
    && (forall c :: c in s.callers && s.callers[c].CheckingAfterJoin? ==> s.pc.Done?)
    && (StopReturned(s.answers) ==> s.pc.Done? && s.errChan.None?)
  }

  lemma AnswerAdds(answers: seq<Answer>, r: Answer)
    ensures Faults(answers + [r]) == Faults(answers) + (if r.reply.Fault? then [r.reply.error] else [])
    ensures StopReturned(answers + [r]) <==> StopReturned(answers) || r.call == Stop
  {
    FaultsSnoc(answers, r);
    if StopReturned(answers) {
      var k :| 0 <= k < |answers| && answers[k].call == Stop;
      assert (answers + [r])[k].call == Stop;
    }
    if r.call == Stop {
      assert (answers + [r])[|answers|].call == Stop;
    }
  }

  predicate IsCollectorStep(a: Action) {
    a.SetUp? || a.Decode? || a.StoreMax? || a.CloseFirstSample? || a.SendError? || a.WaitGroupDone?
  }

  lemma DecodeKeeps(s: State, result: Decoded)
    requires Inv(s) && DecodeStep(s, result).Some?
    ensures Inv(DecodeStep(s, result).value)
  {
    if result.Sample? {
      var t := DecodeStep(s, result).value;
      assert t.samples[..|t.samples| - 1] == s.samples;
    }
  }

  lemma StoreKeeps(s: State)
    requires Inv(s) && StoreStep(s).Some?
    ensures Inv(StoreStep(s).value)
  {
  }

  lemma CloseKeeps(s: State)
    requires Inv(s) && CloseStep(s).Some?
    ensures Inv(CloseStep(s).value)
  {
  }

  lemma SendKeeps(s: State)
    requires Inv(s) && SendStep(s).Some?
    ensures Inv(SendStep(s).value)
  {
  }

  lemma CollectorStepKeeps(s: State, a: Action)
    requires Inv(s) && Step(s, a).Some? && IsCollectorStep(a)
    ensures Inv(Step(s, a).value)
  {
    hide Faults, StopReturned, MaxOf, DecodeStep, StoreStep, CloseStep, SendStep;
    match a
    case SetUp(failure) =>
    case Decode(result) => DecodeKeeps(s, result);
    case StoreMax => StoreKeeps(s);
    case CloseFirstSample => CloseKeeps(s);
    case SendError => SendKeeps(s);
    case WaitGroupDone =>
  }

  /** Callers and answers do not matter to the collecting goroutine. */
  lemma PcUntouched(s: State, t: State)
    requires PcInv(s) && t.pc == s.pc && t.sent == s.sent && t.samples == s.samples && t.firstSampleClosed == s.firstSampleClosed
    ensures PcInv(t) && Recorded(t) == Recorded(s)
  {
  }

  lemma ReceiveKeeps(s: State, c: CallerId, call: Call)
    requires Inv(s) && ReceiveError(s, c, call).Some? && (call == Stop ==> s.pc.Done?)
    ensures Inv(ReceiveError(s, c, call).value)
  {
    var t := ReceiveError(s, c, call).value;
    FaultDelivered(s, c, call);
    PcUntouched(s, t);
    hide PcInv, Faults, StopReturned, MaxOf, Recorded;
  }

  /** The error moves from the channel to the answers. */
  lemma FaultDelivered(s: State, c: CallerId, call: Call)
    requires Inv(s) && s.errChan.Some? && (call == Stop ==> s.pc.Done?)
    ensures var answers := s.answers + [Answer(c, call, Fault(s.errChan.value))];
            && Faults(answers) + Waiting(None) == Faults(s.answers) + Waiting(s.errChan)
            && (StopReturned(answers) ==> s.pc.Done?)
  {
    hide PcInv, MaxOf, Recorded, Faults, StopReturned;
    AnswerAdds(s.answers, Answer(c, call, Fault(s.errChan.value)));
  }

  lemma ReplyKeeps(s: State, c: CallerId, call: Call, reply: Reply)
    requires Inv(s) && !reply.Fault? && (call == Stop ==> s.pc.Done? && s.errChan.None?)
    ensures Inv(Reply1(s, c, call, reply))
  {
    AnswerAdds(s.answers, Answer(c, call, reply));
    hide Faults, StopReturned, MaxOf;
  }

  /** Steps that only move a caller, or cancel the context. */
  lemma CallerMoveKeeps(s: State, t: State)
    requires Inv(s) && t == s.(callers := t.callers, cancelled := t.cancelled)
    requires forall c :: c in t.callers && t.callers[c].CheckingAfterJoin? ==> s.pc.Done?
    ensures Inv(t)
  {
    hide Faults, StopReturned, MaxOf;
  }

  lemma CallerStepKeeps(s: State, a: Action)
    requires Inv(s) && Step(s, a).Some? && !IsCollectorStep(a)
    ensures Inv(Step(s, a).value)
  {
    hide Faults, StopReturned, MaxOf, Reply1, ReceiveError, PcInv, Recorded;
    match a
    case WaitReceivesError(c) => ReceiveKeeps(s, c, WaitForFirstSample);
    case WaitSeesSignal(c) => ReplyKeeps(s, c, WaitForFirstSample, Nil);
    case WaitSeesCancel(c) => ReplyKeeps(s, c, WaitForFirstSample, Cancelled);
    case UsageReceivesError(c) => ReceiveKeeps(s, c, GetMaxMemoryUsage);
    case UsageLoads(c) => ReplyKeeps(s, c, GetMaxMemoryUsage, Usage(s.maxMemoryUsage));
    case StopReceivesError(c) => ReceiveKeeps(s, c, Stop);
    case StopFindsNoError(c) => ReplyKeeps(s, c, Stop, Nil);
    case UsageFindsNoError(_) => CallerMoveKeeps(s, Step(s, a).value);
    case StopCancels(_) => CallerMoveKeeps(s, Step(s, a).value);
    case StopJoins(_) => CallerMoveKeeps(s, Step(s, a).value);
  }

  lemma {:induction false} StepKeeps(s: State, a: Action)
    requires Inv(s) && Step(s, a).Some?
    ensures Inv(Step(s, a).value)
  {
    if IsCollectorStep(a) {
      CollectorStepKeeps(s, a);
    } else {
      CallerStepKeeps(s, a);
    }
  }

  lemma {:induction false} ExecKeeps(s: State, actions: seq<Action>)
    requires Inv(s) && Exec(s, actions).Some?
    ensures Inv(Exec(s, actions).value)
    decreases |actions|
  {
    if actions != [] {
      StepKeeps(s, actions[0]);
      ExecKeeps(Step(s, actions[0]).value, actions[1..]);
    }
  }

  lemma ReachableInv(s: State)
    requires Reachable(s)
    ensures Inv(s)
  {
    var actions :| Exec(INITIAL, actions) == Some(s);
    ExecKeeps(INITIAL, actions);
  }

  // ---- The promises --------------------------------------------------------------------------------

  /** At most one error is ever sent; it is returned by at most one call, and while it waits by none. */
  lemma ErrorNeverReturnedTwice(s: State)
    requires Reachable(s)
    ensures |Faults(s.answers)| <= |s.sent| <= 1
    ensures s.errChan.Some? ==> s.sent == [s.errChan.value] && Faults(s.answers) == []
    ensures s.errChan.None? ==> Faults(s.answers) == s.sent
  {
    ReachableInv(s);
  }

  /** By the time any Stop has returned, the error that was sent, if any, has been returned exactly once. */
  lemma ErrorReturnedByStop(s: State)
    requires Reachable(s) && StopReturned(s.answers)
    ensures s.pc.Done? && Faults(s.answers) == s.sent
  {
    ReachableInv(s);
  }

  /** Sending never waits, closing never panics, and the goroutine is never stuck before it is done. */
  lemma CollectorNeverBlocks(s: State)
    requires Reachable(s)
    ensures !s.panicked
    ensures s.pc.Reporting? ==> Step(s, SendError).Some?
    ensures s.pc.Signalling? || s.pc.ClosingAfterError? ==> !s.firstSampleClosed
    ensures !s.pc.Done? ==> exists a :: IsCollectorStep(a) && Step(s, a).Some?
  {
    ReachableInv(s);
    if !s.pc.Done? {
      var a := match s.pc
        case Decoding(_) => Decode(StreamEnded)
        case Storing(_, _) => StoreMax
        case Reporting(_, _) => SendError
        case Signalling => CloseFirstSample
        case ClosingAfterError => CloseFirstSample
        case Returning => WaitGroupDone
        case _ => SetUp(None);
      assert IsCollectorStep(a) && Step(s, a).Some?;
    }
  }

  function Occurrences(actions: seq<Action>, a: Action): nat {
    if actions == [] then 0 else Bit(actions[0] == a) + Occurrences(actions[1..], a)
  }

  function Bit(b: bool): nat {
    if b then 1 else 0
  }

  lemma StepCounts(s: State, a: Action)
    requires Inv(s) && Step(s, a).Some?
    ensures var t := Step(s, a).value;
            && |t.sent| == |s.sent| + Bit(a == SendError)
            && Bit(t.firstSampleClosed) == Bit(s.firstSampleClosed) + Bit(a == CloseFirstSample)
  {
    hide Faults, StopReturned, MaxOf, Recorded, Reply1;
    match a
    case CloseFirstSample =>
    case SendError =>
    case WaitReceivesError(c) => ReceiveTouches(s, c, WaitForFirstSample);
    case UsageReceivesError(c) => ReceiveTouches(s, c, GetMaxMemoryUsage);
    case StopReceivesError(c) => ReceiveTouches(s, c, Stop);
    case _ => hide ReceiveError; ReplyTouches();
  }

  lemma ReplyTouches()
    ensures forall s, c, call, reply ::
              Reply1(s, c, call, reply).sent == s.sent && Reply1(s, c, call, reply).firstSampleClosed == s.firstSampleClosed
  {
  }

  lemma ReceiveTouches(s: State, c: CallerId, call: Call)
    requires ReceiveError(s, c, call).Some?
    ensures ReceiveError(s, c, call).value.sent == s.sent
    ensures ReceiveError(s, c, call).value.firstSampleClosed == s.firstSampleClosed
  {
  }

  lemma {:induction false} OccurrencesBound(s: State, actions: seq<Action>)
    requires Inv(s) && Exec(s, actions).Some?
    ensures var t := Exec(s, actions).value;
            && |t.sent| == |s.sent| + Occurrences(actions, SendError)
            && Bit(t.firstSampleClosed) == Bit(s.firstSampleClosed) + Occurrences(actions, CloseFirstSample)
    decreases |actions|
  {
    if actions != [] {
      StepKeeps(s, actions[0]);
      StepCounts(s, actions[0]);
      OccurrencesBound(Step(s, actions[0]).value, actions[1..]);
    }
  }

  /** In every run the signal channel is closed at most once and the error channel is sent to at most once. */
  lemma OneCloseOneSend(actions: seq<Action>)
    requires Exec(INITIAL, actions).Some?
    ensures Occurrences(actions, CloseFirstSample) <= 1
    ensures Occurrences(actions, SendError) <= 1
  {
    ExecKeeps(INITIAL, actions);
    OccurrencesBound(INITIAL, actions);
  }

  lemma {:induction false} MaxOfIsMax(samples: seq<uint64>)
    ensures forall k :: 0 <= k < |samples| ==> samples[k] <= MaxOf(samples)
    ensures MaxOf(samples) == 0 || MaxOf(samples) in samples
  {
    if samples != [] {
      MaxOfIsMax(samples[..|samples| - 1]);
    }
  }

  /** A step answers at most one call; what it reports as usage is the running maximum, which never falls. */
  lemma StepAnswers(s: State, a: Action)
    requires Step(s, a).Some?
    ensures var t := Step(s, a).value;
            && s.maxMemoryUsage <= t.maxMemoryUsage
            && (t.answers == s.answers ||
                (t.answers[..|t.answers| - 1] == s.answers && t.answers != [] && t.maxMemoryUsage == s.maxMemoryUsage &&
                 var r := t.answers[|t.answers| - 1].reply; r.Usage? ==> r.bytes == s.maxMemoryUsage))
            && (s.pc.Done? ==> t.pc.Done? && t.samples == s.samples && t.maxMemoryUsage == s.maxMemoryUsage)
  {
    hide Reply1, ReceiveError;
    match a
    case SetUp(_) =>
    case Decode(_) =>
    case StoreMax =>
    case CloseFirstSample =>
    case SendError =>
    case WaitGroupDone =>
    case WaitReceivesError(c) => ReceiveAnswers(s, c, WaitForFirstSample);
    case UsageReceivesError(c) => ReceiveAnswers(s, c, GetMaxMemoryUsage);
    case StopReceivesError(c) => ReceiveAnswers(s, c, Stop);
    case UsageFindsNoError(c) =>
    case StopCancels(c) =>
    case StopJoins(c) =>
    case WaitSeesSignal(c) => ReplyAnswers(s, c, WaitForFirstSample, Nil);
    case WaitSeesCancel(c) => ReplyAnswers(s, c, WaitForFirstSample, Cancelled);
    case UsageLoads(c) => ReplyAnswers(s, c, GetMaxMemoryUsage, Usage(s.maxMemoryUsage));
    case StopFindsNoError(c) => ReplyAnswers(s, c, Stop, Nil);
  }

  lemma ReplyAnswers(s: State, caller: CallerId, call: Call, reply: Reply)
    ensures var t := Reply1(s, caller, call, reply);
            && t.answers != [] && t.answers[..|t.answers| - 1] == s.answers && t.answers[|t.answers| - 1].reply == reply
            && t.maxMemoryUsage == s.maxMemoryUsage && t.pc == s.pc && t.samples == s.samples
  {
  }

  lemma ReceiveAnswers(s: State, caller: CallerId, call: Call)
    requires ReceiveError(s, caller, call).Some?
    ensures var t := ReceiveError(s, caller, call).value;
            && t.answers != [] && t.answers[..|t.answers| - 1] == s.answers && t.answers[|t.answers| - 1].reply.Fault?
            && t.maxMemoryUsage == s.maxMemoryUsage && t.pc == s.pc && t.samples == s.samples
  {
    ReplyAnswers(s.(errChan := None), caller, call, Fault(s.errChan.value));
  }

  lemma {:induction false} DoneIsFinal(s: State, actions: seq<Action>)
    requires s.pc.Done? && Exec(s, actions).Some?
    ensures var t := Exec(s, actions).value;
            && t.pc.Done? && t.samples == s.samples && t.maxMemoryUsage == s.maxMemoryUsage
            && s.answers <= t.answers
            && (forall k :: |s.answers| <= k < |t.answers| && t.answers[k].reply.Usage? ==>
                 t.answers[k].reply.bytes == s.maxMemoryUsage)
    decreases |actions|
  {
    if actions != [] {
      StepAnswers(s, actions[0]);
      hide Step;
      DoneIsFinal(Step(s, actions[0]).value, actions[1..]);
    }
  }

  /** The action decodes a sample of v bytes: the usage without the cache, modulo 2^64 where the cache is greater. */
  predicate Reads(a: Action, v: uint64) {
    && a.Decode? && a.result.Sample?
    && var u, c := a.result.usage, a.result.cache;
       (c <= u ==> v == u - c) && (c > u ==> v == u - c + 0x1_0000_0000_0000_0000)
  }

  ghost predicate SomeReads(actions: seq<Action>, v: uint64) {
    exists k :: 0 <= k < |actions| && Reads(actions[k], v)
  }

  lemma StepSamples(s: State, a: Action, v: uint64)
    requires Step(s, a).Some?
    ensures v in Step(s, a).value.samples <==> v in s.samples || Reads(a, v)
  {
    match a
    case Decode(result) =>
      if result.Sample? {
        assert Reads(a, WithoutCache(result.usage, result.cache));
      }
    case _ =>
  }

  lemma SampleReads(a: Action)
    requires a.Decode? && a.result.Sample?
    ensures exists v: uint64 :: Reads(a, v)
  {
    var u: int, c: int := a.result.usage, a.result.cache;
    if c <= u {
      assert Reads(a, u - c);
    } else {
      assert Reads(a, u - c + 0x1_0000_0000_0000_0000);
    }
  }

  lemma SomeReadsCons(actions: seq<Action>, v: uint64)
    requires actions != []
    ensures SomeReads(actions, v) <==> Reads(actions[0], v) || SomeReads(actions[1..], v)
  {
    if k :| 0 <= k < |actions| && Reads(actions[k], v) {
      assert k > 0 ==> actions[1..][k - 1] == actions[k];
    }
  }

  /** The samples of a run are what its actions have decoded. */
  lemma {:induction false} SamplesAreDecoded(s: State, actions: seq<Action>, v: uint64)
    requires Exec(s, actions).Some?
    ensures v in Exec(s, actions).value.samples <==> v in s.samples || SomeReads(actions, v)
    decreases |actions|
  {
    hide Step, Reads, SomeReads;
    if actions != [] {
      StepSamples(s, actions[0], v);
      SomeReadsCons(actions, v);
      SamplesAreDecoded(Step(s, actions[0]).value, actions[1..], v);
    } else {
      NothingRead(v);
    }
  }

  lemma NothingRead(v: uint64)
    ensures !SomeReads([], v)
  {
  }

  /** Whatever happens after a Stop has returned, the usage reported is the maximum of 0 and all decoded samples. */
  lemma MaximumAfterStop(before: seq<Action>, after: seq<Action>)
    requires Exec(INITIAL, before).Some? && Exec(Exec(INITIAL, before).value, after).Some?
    requires StopReturned(Exec(INITIAL, before).value.answers)
    ensures var s := Exec(INITIAL, before).value;
            var t := Exec(s, after).value;
            && t.samples == s.samples
            && forall k :: |s.answers| <= k < |t.answers| && t.answers[k].reply.Usage? ==>
                 t.answers[k].reply.bytes == MaxOf(s.samples)
  {
    ExecKeeps(INITIAL, before);
    DoneIsFinal(Exec(INITIAL, before).value, after);
  }

  lemma DoneAfterStop(before: seq<Action>)
    requires Exec(INITIAL, before).Some? && StopReturned(Exec(INITIAL, before).value.answers)
    ensures Exec(INITIAL, before).value.pc.Done?
  {
    ExecKeeps(INITIAL, before);
  }

  /** After Stop nothing more is decoded. */
  lemma {:induction false} NothingDecodedWhenDone(s: State, actions: seq<Action>, k: nat)
    requires s.pc.Done? && Exec(s, actions).Some? && k < |actions|
    ensures !actions[k].Decode?
    decreases |actions|
  {
    if k > 0 {
      StepAnswers(s, actions[0]);
      NothingDecodedWhenDone(Step(s, actions[0]).value, actions[1..], k - 1);
    }
  }

  /**
   * Whatever happens after a Stop has returned, the usage reported is at least the usage without cache of every sample
   * decoded in the run, as a 64-bit number, and it is 0 or one of these.
   */
  lemma {:induction false} UsageAfterStop(before: seq<Action>, after: seq<Action>)
    requires Exec(INITIAL, before).Some? && Exec(Exec(INITIAL, before).value, after).Some?
    requires StopReturned(Exec(INITIAL, before).value.answers)
    ensures var s := Exec(INITIAL, before).value;
            var t := Exec(s, after).value;
            var run := before + after;
            forall k :: |s.answers| <= k < |t.answers| && t.answers[k].reply.Usage? ==>
              var bytes := t.answers[k].reply.bytes;
              && (forall i :: 0 <= i < |run| && run[i].Decode? && run[i].result.Sample? ==>
                    var u, c := run[i].result.usage, run[i].result.cache;
                    bytes >= if c <= u then u - c else u - c + 0x1_0000_0000_0000_0000)
              && (bytes == 0 ||
                  exists i :: 0 <= i < |run| && run[i].Decode? && run[i].result.Sample? &&
                    var u, c := run[i].result.usage, run[i].result.cache;
                    bytes == if c <= u then u - c else u - c + 0x1_0000_0000_0000_0000)
  {
    DoneAfterStop(before);
    hide MaxOf, Step, Exec, StopReturned;
    var s := Exec(INITIAL, before).value;
    var run := before + after;
    MaximumAfterStop(before, after);
    MaxOfIsMax(s.samples);
    forall i | 0 <= i < |run| && run[i].Decode? && run[i].result.Sample?
      ensures var u, c := run[i].result.usage, run[i].result.cache;
              MaxOf(s.samples) >= if c <= u then u - c else u - c + 0x1_0000_0000_0000_0000
    {
      if i >= |before| {
        NothingDecodedWhenDone(s, after, i - |before|);
      }
      SampleReads(before[i]);
      var v: uint64 :| Reads(before[i], v);
      SamplesAreDecoded(INITIAL, before, v);
    }
    var most := MaxOf(s.samples);
    if most != 0 {
      SamplesAreDecoded(INITIAL, before, most);
      var i :| 0 <= i < |before| && Reads(before[i], most);
      assert run[i] == before[i];
    }
  }

  /** Reported usages never fall, and never exceed what has been recorded. */
  ghost predicate UsagesRise(answers: seq<Answer>, bound: int) {
    && (forall j :: 0 <= j < |answers| && answers[j].reply.Usage? ==> answers[j].reply.bytes <= bound)
    && (forall i, j :: 0 <= i < j < |answers| && answers[i].reply.Usage? && answers[j].reply.Usage? ==>
         answers[i].reply.bytes <= answers[j].reply.bytes)
  }

  lemma UsagesRiseSnoc(answers: seq<Answer>, bound: int)
    requires answers != [] && UsagesRise(answers[..|answers| - 1], bound)
    requires var r := answers[|answers| - 1].reply; r.Usage? ==> r.bytes == bound
    ensures UsagesRise(answers, bound)
  {
    var init := answers[..|answers| - 1];
    assert forall i :: 0 <= i < |init| ==> init[i] == answers[i];
  }

  lemma UsagesRiseStep(s: State, a: Action)
    requires UsagesRise(s.answers, s.maxMemoryUsage) && Step(s, a).Some?
    ensures var t := Step(s, a).value; UsagesRise(t.answers, t.maxMemoryUsage)
  {
    StepAnswers(s, a);
    hide Step;
    var t := Step(s, a).value;
    if t.answers != s.answers {
      UsagesRiseSnoc(t.answers, t.maxMemoryUsage);
    }
  }

  lemma {:induction false} UsagesRiseInRun(s: State, actions: seq<Action>)
    requires UsagesRise(s.answers, s.maxMemoryUsage) && Exec(s, actions).Some?
    ensures var t := Exec(s, actions).value; UsagesRise(t.answers, t.maxMemoryUsage)
    decreases |actions|
  {
    if actions != [] {
      UsagesRiseStep(s, actions[0]);
      UsagesRiseInRun(Step(s, actions[0]).value, actions[1..]);
    }
  }

  lemma UsageReportsRise(s: State)
    requires Reachable(s)
    ensures UsagesRise(s.answers, MaxOf(s.samples))
  {
    var actions :| Exec(INITIAL, actions) == Some(s);
    UsagesRiseInRun(INITIAL, actions);
    ReachableInv(s);
    MaxOfIsMax(s.samples);
    MaxOfIsMax(Recorded(s));
  }

  /**
   * When WaitForFirstSample returns nil on the signal and nothing has been recorded, an error is waiting to be
   * fetched if and only if no call has had an error before.
   */
  lemma SignalMeaning(s: State, c: CallerId)
    requires Reachable(s) && Step(s, WaitSeesSignal(c)).Some?
    ensures Recorded(s) == [] ==> (s.errChan.Some? <==> Faults(s.answers) == [])
  {
    ReachableInv(s);
  }

  /** So a nil means a recorded sample or a waiting error for every caller until some call has returned an error. */
  lemma FirstSignal(s: State, c: CallerId)
    requires Reachable(s) && Step(s, WaitSeesSignal(c)).Some? && Faults(s.answers) == []
    ensures Recorded(s) != [] || s.errChan.Some?
  {
    SignalMeaning(s, c);
  }

  /** A second wait after an error was returned does return nil with neither a sample nor an error left. */
  lemma SignalAfterErrorIsEmpty(e: Error, c: CallerId)
    ensures var run := [SetUp(Some(e)), SendError, WaitReceivesError(c), CloseFirstSample, WaitSeesSignal(c)];
            Exec(INITIAL, run).Some? &&
            var t := Exec(INITIAL, run).value;
            && t.answers == [Answer(c, WaitForFirstSample, Fault(e)), Answer(c, WaitForFirstSample, Nil)]
            && t.samples == [] && t.errChan.None?
  {
    var run := [SetUp(Some(e)), SendError, WaitReceivesError(c), CloseFirstSample, WaitSeesSignal(c)];
    var s1 := Step(INITIAL, run[0]).value;
    var s2 := Step(s1, run[1]).value;
    var s3 := Step(s2, run[2]).value;
    var s4 := Step(s3, run[3]).value;
    var s5 := Step(s4, run[4]).value;
    assert run[1..][1..] == run[2..] && run[2..][1..] == run[3..] && run[3..][1..] == run[4..];
    assert Exec(s4, run[4..]) == Some(s5) by { assert run[4..][1..] == []; }
    assert Exec(s3, run[3..]) == Some(s5);
    assert Exec(s2, run[2..]) == Some(s5);
    assert Exec(s1, run[1..]) == Some(s5);
  }

  /** When the goroutine is done, the signal has been given exactly if there was a sample or an error. */
  lemma SignalGivenIff(s: State)
    requires Reachable(s) && s.pc.Done?
    ensures s.firstSampleClosed <==> s.samples != [] || s.sent != []
  {
    ReachableInv(s);
  }

  // ---- The calls of one caller ------------------------------------------------------------------------

  function PlaceOf(s: State, c: CallerId): Option<CallerPc> {
    if c in s.callers then Some(s.callers[c]) else None
  }

  /** What the action means for the call that c is in: the next place of c, or nothing if c cannot take it there. */
  function NextPlace(place: Option<CallerPc>, a: Action, c: CallerId): Option<Option<CallerPc>> {
    match a
    case WaitReceivesError(d) => if d != c then Some(place) else if place == None then Some(None) else None
    case WaitSeesSignal(d) => if d != c then Some(place) else if place == None then Some(None) else None
    case WaitSeesCancel(d) => if d != c then Some(place) else if place == None then Some(None) else None
    case UsageReceivesError(d) => if d != c then Some(place) else if place == None then Some(None) else None
    case UsageFindsNoError(d) => if d != c then Some(place) else if place == None then Some(Some(LoadingUsage)) else None
    case UsageLoads(d) => if d != c then Some(place) else if place == Some(LoadingUsage) then Some(None) else None
    case StopCancels(d) => if d != c then Some(place) else if place == None then Some(Some(JoiningCollector)) else None
    case StopJoins(d) => if d != c then Some(place) else if place == Some(JoiningCollector) then Some(Some(CheckingAfterJoin)) else None
    case StopReceivesError(d) => if d != c then Some(place) else if place == Some(CheckingAfterJoin) then Some(None) else None
    case StopFindsNoError(d) => if d != c then Some(place) else if place == Some(CheckingAfterJoin) then Some(None) else None
    case _ => Some(place)
  }

  /** The place of c after the actions, if they are calls of c one after the other, each in the order of its steps. */
  function CallsOf(place: Option<CallerPc>, actions: seq<Action>, c: CallerId): Option<Option<CallerPc>>
    decreases |actions|
  {
    if actions == [] then Some(place)
    else
      var next := NextPlace(place, actions[0], c);
      if next.None? then None else CallsOf(next.value, actions[1..], c)
  }

  lemma StepOfCaller(s: State, a: Action, c: CallerId)
    requires Step(s, a).Some?
    ensures NextPlace(PlaceOf(s, c), a, c) == Some(PlaceOf(Step(s, a).value, c))
  {
  }

  /** In every run each caller makes its calls one after the other, whatever the others do in between. */
  lemma {:induction false} CallsAreInOrder(s: State, actions: seq<Action>, c: CallerId)
    requires Exec(s, actions).Some?
    ensures CallsOf(PlaceOf(s, c), actions, c) == Some(PlaceOf(Exec(s, actions).value, c))
    decreases |actions|
  {
    hide Step, NextPlace, PlaceOf;
    if actions != [] {
      StepOfCaller(s, actions[0], c);
      CallsAreInOrder(Step(s, actions[0]).value, actions[1..], c);
    }
  }

  /** The call that an action completes. */
  function Completes(a: Action): seq<(CallerId, Call)> {
    match a
    case WaitReceivesError(c) => [(c, WaitForFirstSample)]
    case WaitSeesSignal(c) => [(c, WaitForFirstSample)]
    case WaitSeesCancel(c) => [(c, WaitForFirstSample)]
    case UsageReceivesError(c) => [(c, GetMaxMemoryUsage)]
    case UsageLoads(c) => [(c, GetMaxMemoryUsage)]
    case StopReceivesError(c) => [(c, Stop)]
    case StopFindsNoError(c) => [(c, Stop)]
    case _ => []
  }

  function CallOf(r: Answer): (CallerId, Call) {
    (r.caller, r.call)
  }

  lemma StepCompletes(s: State, a: Action)
    requires Step(s, a).Some?
    ensures Map(CallOf, Step(s, a).value.answers) == Map(CallOf, s.answers) + Completes(a)
  {
    hide ReceiveError;
    match a
    case WaitReceivesError(c) => ReceiveCompletes(s, c, WaitForFirstSample);
    case UsageReceivesError(c) => ReceiveCompletes(s, c, GetMaxMemoryUsage);
    case StopReceivesError(c) => ReceiveCompletes(s, c, Stop);
    case _ =>
  }

  lemma ReceiveCompletes(s: State, c: CallerId, call: Call)
    requires ReceiveError(s, c, call).Some?
    ensures Map(CallOf, ReceiveError(s, c, call).value.answers) == Map(CallOf, s.answers) + [(c, call)]
  {
  }

  /** Every completed call has exactly one answer, in the order of completion. */
  lemma {:induction false} OneAnswerPerCall(s: State, actions: seq<Action>)
    requires Exec(s, actions).Some?
    ensures Map(CallOf, Exec(s, actions).value.answers) == Map(CallOf, s.answers) + FlatMap(Completes, actions)
    decreases |actions|
  {
    hide Step, Completes, Map;
    if actions != [] {
      StepCompletes(s, actions[0]);
      OneAnswerPerCall(Step(s, actions[0]).value, actions[1..]);
    }
  }

  /** The context is cancelled exactly when some Stop has begun. */
  lemma {:induction false} CancelledIff(s: State, actions: seq<Action>)
    requires Exec(s, actions).Some?
    ensures Exec(s, actions).value.cancelled <==> s.cancelled || exists k :: 0 <= k < |actions| && actions[k].StopCancels?
    decreases |actions|
  {
    if actions != [] {
      StepCancels(s, actions[0]);
      hide Step;
      CancelledIff(Step(s, actions[0]).value, actions[1..]);
      if k :| 0 <= k < |actions| && actions[k].StopCancels? {
        assert k > 0 ==> actions[1..][k - 1] == actions[k];
      }
    }
  }

  lemma StepCancels(s: State, a: Action)
    requires Step(s, a).Some?
    ensures Step(s, a).value.cancelled <==> s.cancelled || a.StopCancels?
  {
  }

  /** A wait answers that the context was cancelled only after some Stop has begun. */
  lemma CancelSeenAfterStop(actions: seq<Action>, c: CallerId)
    requires Exec(INITIAL, actions).Some? && Step(Exec(INITIAL, actions).value, WaitSeesCancel(c)).Some?
    ensures exists k :: 0 <= k < |actions| && actions[k].StopCancels?
  {
    CancelledIff(INITIAL, actions);
  }

  /**
   * When a caller can go on. WaitForFirstSample can return as soon as there is an error, the signal or a cancel;
   * GetMaxMemoryUsage never waits, and its first step is decided by whether an error waits; Stop waits for the
   * collecting goroutine only.
   */
  lemma CallerCanGoOn(s: State, c: CallerId)
    ensures PlaceOf(s, c) == None ==>
              && (Step(s, WaitReceivesError(c)).Some? <==> s.errChan.Some?)
              && (Step(s, WaitSeesSignal(c)).Some? <==> s.firstSampleClosed)
              && (Step(s, WaitSeesCancel(c)).Some? <==> s.cancelled)
              && (Step(s, UsageReceivesError(c)).Some? <==> s.errChan.Some?)
              && (Step(s, UsageFindsNoError(c)).Some? <==> !Step(s, UsageReceivesError(c)).Some?)
              && Step(s, StopCancels(c)).Some?
    ensures PlaceOf(s, c) == Some(LoadingUsage) ==> Step(s, UsageLoads(c)).Some?
    ensures PlaceOf(s, c) == Some(JoiningCollector) ==> (Step(s, StopJoins(c)).Some? <==> s.pc.Done?)
    ensures PlaceOf(s, c) == Some(CheckingAfterJoin) ==>
              && (Step(s, StopReceivesError(c)).Some? <==> s.errChan.Some?)
              && (Step(s, StopFindsNoError(c)).Some? <==> !Step(s, StopReceivesError(c)).Some?)
  {
  }

  // ---- Stop finishes ---------------------------------------------------------------------------------

  /** How many collector steps can still follow once the decoder gives no more samples. */
  function Remaining(pc: Pc): nat {
    match pc
    case CreatingClient => 9
    case FindingContainer => 8
    case OpeningStats => 7
    case Storing(_, _) => 7
    case Signalling => 6
    case Decoding(_) => 5
    case Reporting(_, _) => 4
    case ClosingAfterError => 3
    case Returning => 2
    case Done => 0
  }

  lemma StepShortens(s: State, a: Action)
    requires Step(s, a).Some? && !(a.Decode? && a.result.Sample?)
    ensures if IsCollectorStep(a) then Remaining(Step(s, a).value.pc) < Remaining(s.pc)
            else Step(s, a).value.pc == s.pc
  {
  }

  predicate NoMoreSamples(actions: seq<Action>) {
    forall a :: a in actions ==> !(a.Decode? && a.result.Sample?)
  }

  function CollectorSteps(actions: seq<Action>): nat {
    if actions == [] then 0 else Bit(IsCollectorStep(actions[0])) + CollectorSteps(actions[1..])
  }

  lemma {:induction false} FewStepsLeft(s: State, actions: seq<Action>)
    requires NoMoreSamples(actions) && Exec(s, actions).Some?
    ensures CollectorSteps(actions) + Remaining(Exec(s, actions).value.pc) <= Remaining(s.pc)
    decreases |actions|
  {
    if actions != [] {
      StepShortens(s, actions[0]);
      assert actions[0] in actions;
      assert forall a :: a in actions[1..] ==> a in actions;
      FewStepsLeft(Step(s, actions[0]).value, actions[1..]);
    }
  }

  /**
   * If the decoder gives no sample after the cancel, the goroutine can take at most nine more steps, and
   * until it is done it always can take one: so the join in Stop is reached.
   */
  lemma StopFinishes(s: State, actions: seq<Action>)
    requires Reachable(s) && NoMoreSamples(actions) && Exec(s, actions).Some?
    ensures CollectorSteps(actions) <= 9
    ensures var t := Exec(s, actions).value;
            t.pc.Done? || exists a :: IsCollectorStep(a) && Step(t, a).Some?
  {
    FewStepsLeft(s, actions);
    ReachableInv(s);
    var before :| Exec(INITIAL, before) == Some(s);
    ExecConcat(INITIAL, before, actions);
    CollectorNeverBlocks(Exec(s, actions).value);
  }

  lemma {:induction false} ExecConcat(s: State, before: seq<Action>, after: seq<Action>)
    requires Exec(s, before).Some?
    ensures Exec(s, before + after) == Exec(Exec(s, before).value, after)
    decreases |before|
  {
    if before == [] {
      assert before + after == after;
    } else {
      assert (before + after)[1..] == before[1..] + after;
      ExecConcat(Step(s, before[0]).value, before[1..], after);
    }
  }
}
