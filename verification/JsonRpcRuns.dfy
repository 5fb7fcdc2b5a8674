/** What every interleaving of the JSON-RPC client and server keeps, and what that means for the callers. */
module JsonRpcRuns {
  import opened Wrappers
  import opened Text
  import opened JsonRpcServer
  import opened JsonRpcPair

  // ----- Invariant -----

  predicate Known(s: State, id: Id) {
    1 <= id <= |s.callers|
  }

  /** A thread still has something for this caller, or an answer can still find it. */
  predicate SomeoneWillSend(s: State, k: Channel) {
    || (k + 1 in s.pending && s.pending[k + 1] == k)
    || (s.writer.Telling? && s.writer.reply == k)
    || (s.reader.Holding? && s.reader.reply == k)
  }

  /** A caller is out of the pending map before it registers, when it has mail, and after it has returned. */
  predicate CallerOk(s: State, k: Channel)
    requires k < |s.callers|
  {
    var c := s.callers[k];
    && c.id == k + 1
    && (c.phase.Allocated? || c.phase.Returned? || c.inbox != [] ==> c.id !in s.pending)
    && (c.phase.Allocated? || c.phase.Registered? ==> c.inbox == [])
    && (c.phase.Registered? ==> c.id in s.pending)
    && (c.phase.Waiting? && c.inbox == [] ==> SomeoneWillSend(s, k))
    && c.phase != Returned(Disconnected)
  }

  predicate CallersOk(s: State) {
    s.nextId == |s.callers| + 1 && forall k | 0 <= k < |s.callers| :: CallerOk(s, k)
  }

  predicate PendingOk(s: State) {
    forall id | id in s.pending :: Known(s, id) && s.pending[id] == id - 1
  }

  /** A thread that is about to send has a caller that was sent and is out of the map, or will take it out. */
  predicate ThreadsOk(s: State) {
    && (s.writer.Failing? ==> s.writer.reply < |s.callers| && s.writer.id == s.writer.reply + 1
                              && Started(s.callers[s.writer.reply].phase))
    && (s.writer.Telling? ==> s.writer.reply < |s.callers| && s.writer.reply + 1 !in s.pending
                              && Started(s.callers[s.writer.reply].phase))
    && (s.reader.Holding? ==> s.reader.reply < |s.callers| && s.reader.reply + 1 !in s.pending
                              && Started(s.callers[s.reader.reply].phase))
  }

  predicate Mapped(s: State) {
    CallersOk(s) && PendingOk(s) && ThreadsOk(s)
  }

  function CommandIds(queue: seq<Command>): seq<Id> {
    if queue == [] then [] else (if queue[0].Request? then [queue[0].id] else []) + CommandIds(queue[1..])
  }

  function LineIds(lines: seq<Line>): seq<Id> {
    if lines == [] then []
    else (if lines[0].Call? && lines[0].id.Some? then [lines[0].id.value] else []) + LineIds(lines[1..])
  }

  function AnsweredIds(written: seq<Exchange>): seq<Id> {
    if written == [] then []
    else
      var id := AnswerId(written[0].answer);
      (if id.Some? then [id.value] else []) + AnsweredIds(written[1..])
  }

  predicate NoRepeats(ids: seq<Id>) {
    forall i, j | 0 <= i < j < |ids| :: ids[i] != ids[j]
  }

  /** Every id answered or on its way to the server. */
  function Travel(s: State): seq<Id> {
    AnsweredIds(s.written) + LineIds(s.toServer) + CommandIds(s.queue)
  }

  predicate WasSent(s: State, id: Id) {
    Known(s, id) && Started(s.callers[id - 1].phase)
  }

  /** Each id travels at most once, and only after its caller sent it. */
  predicate TravelOk(s: State) {
    NoRepeats(Travel(s)) && forall id | id in Travel(s) :: WasSent(s, id)
  }

  /** The server wrote this answer to this caller's line. */
  ghost predicate Wrote(s: State, k: Channel, answer: Answer)
    requires k < |s.callers|
  {
    && AnswerId(answer) == Some(s.callers[k].id)
    && Exchange(LineOf(s.callers[k]), answer) in s.written
  }

  ghost predicate Meant(s: State, k: Channel, m: Message)
    requires k < |s.callers|
  {
    match m case Answered(answer) => Wrote(s, k, answer) case NotWritten => s.callers[k].id in s.failed
  }

  /** Commands and lines carry the requests of their callers. */
  predicate RequestsOk(s: State) {
    && (forall i | 0 <= i < |s.queue| && s.queue[i].Request? ::
          Known(s, s.queue[i].id) && s.queue[i].reply == s.queue[i].id - 1
          && CommandLine(s.queue[i]) == LineOf(s.callers[s.queue[i].reply]))
    && (forall i | 0 <= i < |s.toServer| && s.toServer[i].Call? && s.toServer[i].id.Some? ::
          Known(s, s.toServer[i].id.value) && s.toServer[i] == LineOf(s.callers[s.toServer[i].id.value - 1]))
  }

  ghost predicate AnswersOk(s: State) {
    && (forall i | 0 <= i < |s.toClient| && s.toClient[i].FromLoop? && AnswerId(s.toClient[i].answer).Some? ::
          var id := AnswerId(s.toClient[i].answer).value;
          WasSent(s, id) && Wrote(s, id - 1, s.toClient[i].answer))
    && (s.reader.Holding? ==> s.reader.reply < |s.callers| && Wrote(s, s.reader.reply, s.reader.answer))
    && (s.writer.Failing? || s.writer.Telling? ==>
          s.writer.reply < |s.callers| && s.callers[s.writer.reply].id in s.failed)
  }

  ghost predicate GotMeant(s: State, k: Channel)
    requires k < |s.callers|
  {
    var phase := s.callers[k].phase;
    phase.Returned? && phase.outcome.Got? ==> Meant(s, k, phase.outcome.message)
  }

  ghost predicate MailOk(s: State) {
    forall k | 0 <= k < |s.callers| ::
      && (forall m | m in s.callers[k].inbox :: Meant(s, k, m))
      && GotMeant(s, k)
  }

  ghost predicate Inv(s: State) {
    Mapped(s) && TravelOk(s) && RequestsOk(s) && AnswersOk(s) && MailOk(s) && Sound(s.server)
  }

  // ----- What no step takes back -----

  /** Callers keep their requests, sent stays sent, and returned stays returned. */
  predicate CallersKept(s: State, t: State) {
    && |s.callers| <= |t.callers|
    && (forall k | 0 <= k < |s.callers| ::
          && t.callers[k].id == s.callers[k].id && LineOf(t.callers[k]) == LineOf(s.callers[k])
          && (Started(s.callers[k].phase) ==> Started(t.callers[k].phase))
          && (s.callers[k].phase.Returned? ==> t.callers[k] == s.callers[k]))
  }

  /** And the logs only grow. */
  predicate Grows(s: State, t: State) {
    CallersKept(s, t) && s.written <= t.written && s.failed <= t.failed
  }

  lemma {:induction false} StepGrows(s: State, step: Step)
    ensures Grows(s, Next(s, step))
  {
    hide Next;
    CallersGrow(s, step);
    LogsGrow(s, step);
  }

  lemma {:induction false} CallersGrow(s: State, step: Step)
    ensures CallersKept(s, Next(s, step))
  {
    hide CallersKept, Next;
    if OfThread(step) {
      ThreadKeepsCallers(s, step);
    } else {
      CallerKeepsCallers(s, step);
    }
  }

  lemma {:induction false} ThreadKeepsCallers(s: State, step: Step)
    requires OfThread(step)
    ensures CallersKept(s, Next(s, step))
  {
    hide Serve, HasSender, CommandLine, AnswerId, Move;
  }

  lemma {:induction false} CallerKeepsCallers(s: State, step: Step)
    requires !OfThread(step)
    ensures CallersKept(s, Next(s, step))
  {
    hide TakeNext, ServeNext, ReadNext, HasSender, Send;
  }

  lemma {:induction false} LogsGrow(s: State, step: Step)
    ensures s.written <= Next(s, step).written && s.failed <= Next(s, step).failed
  {
    hide Serve, HasSender, CommandLine, AnswerId;
  }

  lemma {:induction false} GrowsOn(s: State, t: State, u: State)
    requires Grows(s, t) && Grows(t, u)
    ensures Grows(s, u)
  {
  }

  lemma {:induction false} RunGrows(s: State, steps: seq<Step>)
    ensures Grows(s, Run(s, steps))
    decreases |steps|
  {
    hide Next, Grows;
    if steps == [] {
      assert Grows(s, s) by {
        SameGrows(s);
      }
    } else {
      StepGrows(s, steps[0]);
      RunGrows(Next(s, steps[0]), steps[1..]);
      GrowsOn(s, Next(s, steps[0]), Run(s, steps));
    }
  }

  lemma {:induction false} SameGrows(s: State)
    ensures Grows(s, s)
  {
  }

  lemma {:induction false} WroteGrows(s: State, t: State, k: Channel, answer: Answer)
    requires Grows(s, t) && k < |s.callers| && Wrote(s, k, answer)
    ensures Wrote(t, k, answer)
  {
    var e :| 0 <= e < |s.written| && s.written[e] == Exchange(LineOf(s.callers[k]), answer);
    assert t.written[e] == s.written[e];
  }

  lemma {:induction false} MeantGrows(s: State, t: State, k: Channel, m: Message)
    requires Grows(s, t) && k < |s.callers| && Meant(s, k, m)
    ensures Meant(t, k, m)
  {
    hide Wrote;
    if m.Answered? {
      WroteGrows(s, t, k, m.answer);
    }
  }

  // ----- The map and the callers -----

  predicate OfThread(step: Step) {
    step.TakeCommand? || step.LeavePending? || step.TellCaller? || step.ServerTurn? || step.ReadLine? || step.Hand?
  }

  lemma {:induction false} MappedByCaller(s: State, step: Step)
    requires Mapped(s)
    requires step.Allocate? ==> s.nextId + 1 < U64_LIMIT
    requires !OfThread(step)
    ensures Mapped(Next(s, step))
  {
    match step {
      case Allocate(_, _) => AllocateMapped(s, step);
      case Register(k) => RegisterMapped(s, k);
      case Enqueue(k) => EnqueueMapped(s, k);
      case Hangup(k) => NeverHangsUp(s, k);
      case Receive(k) => ReceiveMapped(s, k);
      case GiveUp(k) =>
        if In(s, k, Unsent) {
          LeaveMapped(s, k, WriterStopped);
        }
      case Forget(k) =>
        if In(s, k, Late) {
          LeaveMapped(s, k, TimedOut);
        }
      case Expire(k) => ExpireMapped(s, k);
      case _ => QuietMapped(s, Next(s, step));
    }
  }

  /** Queues, pipes and an ending reader do not matter to the map. */
  lemma {:induction false} QuietMapped(s: State, t: State)
    requires Mapped(s) && t.nextId == s.nextId && t.callers == s.callers && t.pending == s.pending
    requires t.writer == s.writer && (t.reader == s.reader || (s.reader.ReaderIdle? && t.reader.ReaderGone?))
    ensures Mapped(t)
  {
    forall k | 0 <= k < |t.callers|
      ensures CallerOk(t, k)
    {
      assert CallerOk(s, k);
    }
  }

  lemma {:induction false} AllocateMapped(s: State, step: Step)
    requires Mapped(s) && step.Allocate? && s.nextId + 1 < U64_LIMIT
    ensures Mapped(Next(s, step))
  {
    var t := Next(s, step);
    forall k | 0 <= k < |t.callers|
      ensures CallerOk(t, k)
    {
      if k < |s.callers| {
        assert CallerOk(s, k) && t.callers[k] == s.callers[k];
      }
    }
  }

  lemma {:induction false} RegisterMapped(s: State, k: Channel)
    requires Mapped(s)
    ensures Mapped(Next(s, Register(k)))
  {
    if In(s, k, Allocated) {
      var t := Next(s, Register(k));
      assert CallerOk(s, k);
      forall j | 0 <= j < |t.callers|
        ensures CallerOk(t, j)
      {
        assert CallerOk(s, j);
      }
    }
  }

  lemma {:induction false} EnqueueMapped(s: State, k: Channel)
    requires Mapped(s)
    ensures Mapped(Next(s, Enqueue(k)))
  {
    if In(s, k, Registered) {
      var t := Next(s, Enqueue(k));
      assert CallerOk(s, k);
      forall j | 0 <= j < |t.callers|
        ensures CallerOk(t, j)
      {
        assert CallerOk(s, j);
      }
    }
  }

  /** Nobody who waits is without a sender, so a channel never hangs up. */
  lemma {:induction false} NeverHangsUp(s: State, k: Channel)
    requires Mapped(s)
    ensures Next(s, Hangup(k)) == s
  {
    if In(s, k, Waiting) && s.callers[k].inbox == [] {
      assert CallerOk(s, k);
      assert k + 1 in s.pending && s.pending[k + 1] == k ==> HasSender(s, k);
    }
  }

  lemma {:induction false} ReceiveMapped(s: State, k: Channel)
    requires Mapped(s)
    ensures Mapped(Next(s, Receive(k)))
  {
    if In(s, k, Waiting) && s.callers[k].inbox != [] {
      var t := Next(s, Receive(k));
      assert CallerOk(s, k);
      forall j | 0 <= j < |t.callers|
        ensures CallerOk(t, j)
      {
        assert CallerOk(s, j);
      }
    }
  }

  lemma {:induction false} LeaveMapped(s: State, k: Channel, outcome: Outcome)
    requires Mapped(s) && (outcome.WriterStopped? || outcome.TimedOut?) && (In(s, k, Unsent) || In(s, k, Late))
    ensures Mapped(Move(s, k, Returned(outcome)).(pending := s.pending - {s.callers[k].id}))
  {
    var t := Move(s, k, Returned(outcome)).(pending := s.pending - {s.callers[k].id});
    assert CallerOk(s, k);
    forall j | 0 <= j < |t.callers|
      ensures CallerOk(t, j)
    {
      assert CallerOk(s, j);
    }
  }

  lemma {:induction false} ExpireMapped(s: State, k: Channel)
    requires Mapped(s)
    ensures Mapped(Next(s, Expire(k)))
  {
    if In(s, k, Waiting) && s.callers[k].inbox == [] {
      var t := Next(s, Expire(k));
      forall j | 0 <= j < |t.callers|
        ensures CallerOk(t, j)
      {
        assert CallerOk(s, j);
      }
    }
  }

  /** The threads: taking a sender out of the map keeps it in hand until it is used. */
  lemma {:induction false} MappedByThread(s: State, step: Step)
    requires Mapped(s) && TravelOk(s) && RequestsOk(s) && AnswersOk(s)
    requires OfThread(step)
    ensures Mapped(Next(s, step))
  {
    match step {
      case TakeCommand(luck) => TakeMapped(s, luck);
      case LeavePending => LeavePendingMapped(s);
      case TellCaller =>
        if s.writer.Telling? {
          TellMapped(s);
        }
      case ServerTurn(luck) =>
        if s.toServer != [] {
          QuietMapped(s, Next(s, step));
        }
      case ReadLine => ReadMapped(s);
      case Hand =>
        if s.reader.Holding? {
          HandMapped(s);
        }
    }
  }

  lemma {:induction false} TakeMapped(s: State, luck: WriteLuck)
    requires Mapped(s) && TravelOk(s) && RequestsOk(s)
    ensures Mapped(Next(s, TakeCommand(luck)))
  {
    hide NoRepeats, Travel;
    if s.writer.WriterIdle? && s.queue != [] {
      var t := Next(s, TakeCommand(luck));
      if s.queue[0].Request? {
        FirstCommandSent(s);
      }
      hide TravelOk, CommandLine, LineOf;
      forall k | 0 <= k < |t.callers|
        ensures CallerOk(t, k)
      {
        assert CallerOk(s, k);
      }
    }
  }

  lemma {:induction false} LeavePendingMapped(s: State)
    requires Mapped(s)
    ensures Mapped(Next(s, LeavePending))
  {
    if s.writer.Failing? {
      var t := Next(s, LeavePending);
      forall k | 0 <= k < |t.callers|
        ensures CallerOk(t, k)
      {
        assert CallerOk(s, k);
      }
    }
  }

  lemma {:induction false} TellMapped(s: State)
    requires Mapped(s) && s.writer.Telling?
    ensures Mapped(Send(s, s.writer.reply, NotWritten).(writer := WriterIdle))
  {
    var t := Send(s, s.writer.reply, NotWritten).(writer := WriterIdle);
    assert CallerOk(s, s.writer.reply);
    forall j | 0 <= j < |t.callers|
      ensures CallerOk(t, j)
    {
      assert CallerOk(s, j);
    }
  }

  lemma {:induction false} HandMapped(s: State)
    requires Mapped(s) && s.reader.Holding?
    ensures Mapped(Send(s, s.reader.reply, Answered(s.reader.answer)).(reader := ReaderIdle))
  {
    var t := Send(s, s.reader.reply, Answered(s.reader.answer)).(reader := ReaderIdle);
    assert CallerOk(s, s.reader.reply);
    forall j | 0 <= j < |t.callers|
      ensures CallerOk(t, j)
    {
      assert CallerOk(s, j);
    }
  }

  lemma {:induction false} ReadMapped(s: State)
    requires Mapped(s) && AnswersOk(s)
    ensures Mapped(Next(s, ReadLine))
  {
    hide Wrote;
    if s.reader.ReaderIdle? && s.toClient != [] {
      var t := Next(s, ReadLine);
      forall k | 0 <= k < |t.callers|
        ensures CallerOk(t, k)
      {
        assert CallerOk(s, k);
      }
    }
  }

  // ----- Sequences of ids -----

  lemma {:induction false} CommandIdsConcat(a: seq<Command>, b: seq<Command>)
    ensures CommandIds(a + b) == CommandIds(a) + CommandIds(b)
  {
    if a == [] {
      assert a + b == b;
    } else {
      CommandIdsConcat(a[1..], b);
      assert (a + b)[0] == a[0] && (a + b)[1..] == a[1..] + b;
      ConcatAssociative(if a[0].Request? then [a[0].id] else [], CommandIds(a[1..]), CommandIds(b));
    }
  }

  lemma {:induction false} LineIdsConcat(a: seq<Line>, b: seq<Line>)
    ensures LineIds(a + b) == LineIds(a) + LineIds(b)
  {
    if a == [] {
      assert a + b == b;
    } else {
      LineIdsConcat(a[1..], b);
      assert (a + b)[0] == a[0] && (a + b)[1..] == a[1..] + b;
      ConcatAssociative(if a[0].Call? && a[0].id.Some? then [a[0].id.value] else [], LineIds(a[1..]), LineIds(b));
    }
  }

  lemma {:induction false} AnsweredIdsConcat(a: seq<Exchange>, b: seq<Exchange>)
    ensures AnsweredIds(a + b) == AnsweredIds(a) + AnsweredIds(b)
  {
    if a == [] {
      assert a + b == b;
    } else {
      AnsweredIdsConcat(a[1..], b);
      assert (a + b)[0] == a[0] && (a + b)[1..] == a[1..] + b;
      ConcatAssociative(if AnswerId(a[0].answer).Some? then [AnswerId(a[0].answer).value] else [], AnsweredIds(a[1..]),
                        AnsweredIds(b));
    }
  }

  lemma {:induction false} OneId(c: Command, l: Line, e: Exchange)
    ensures CommandIds([c]) == if c.Request? then [c.id] else []
    ensures LineIds([l]) == if l.Call? && l.id.Some? then [l.id.value] else []
    ensures AnsweredIds([e]) == if AnswerId(e.answer).Some? then [AnswerId(e.answer).value] else []
  {
    assert [c][1..] == [] && [l][1..] == [] && [e][1..] == [];
  }

  /** Dropping one id keeps the others distinct. */
  lemma {:induction false} DropOne(a: seq<Id>, id: Id, b: seq<Id>)
    requires NoRepeats(a + [id] + b)
    ensures NoRepeats(a + b)
    ensures forall x | x in a + b :: x in a + [id] + b
  {
    var all := a + [id] + b;
    forall i, j | 0 <= i < j < |a + b|
      ensures (a + b)[i] != (a + b)[j]
    {
      assert (a + b)[i] == if i < |a| then all[i] else all[i + 1];
      assert (a + b)[j] == if j < |a| then all[j] else all[j + 1];
    }
    forall x | x in a + b
      ensures x in all
    {
      if x in a {
        var i :| 0 <= i < |a| && a[i] == x;
        assert all[i] == x;
      } else {
        var i :| 0 <= i < |b| && b[i] == x;
        assert all[|a| + 1 + i] == x;
      }
    }
  }

  lemma {:induction false} PrefixDistinct(a: seq<Id>, b: seq<Id>)
    requires NoRepeats(a + b)
    ensures NoRepeats(a) && forall x | x in a :: x in a + b
  {
    assert forall i | 0 <= i < |a| :: (a + b)[i] == a[i];
  }

  // ----- Ids travel once -----

  /** Steps that move no id. */
  lemma {:induction false} TravelKept(s: State, t: State)
    requires TravelOk(s) && Grows(s, t)
    requires Travel(t) == Travel(s) || (NoRepeats(Travel(t)) && forall x | x in Travel(t) :: x in Travel(s))
    ensures TravelOk(t)
  {
    hide Travel, NoRepeats;
    forall id | id in Travel(t)
      ensures WasSent(t, id)
    {
      assert WasSent(s, id);
    }
  }

  lemma {:induction false} FirstCommandSent(s: State)
    requires TravelOk(s) && s.queue != [] && s.queue[0].Request?
    ensures WasSent(s, s.queue[0].id)
  {
    hide NoRepeats;
    var id := s.queue[0].id;
    assert CommandIds(s.queue)[0] == id;
    assert Travel(s)[|AnsweredIds(s.written) + LineIds(s.toServer)|] == id;
  }

  lemma {:induction false} TravelStep(s: State, step: Step)
    requires Inv(s)
    ensures TravelOk(Next(s, step))
  {
    hide Inv, Travel, TravelOk, Serve, Grows;
    StepGrows(s, step);
    InvParts(s);
    match step {
      case Enqueue(k) => EnqueueTravel(s, k);
      case Notify(verb, good) => NotifyTravel(s, step);
      case AskStop => NotifyTravel(s, step);
      case TakeCommand(luck) =>
        if s.writer.WriterIdle? && s.queue != [] {
          TakeTravel(s, luck);
          TravelKept(s, Next(s, step));
        }
      case ServerTurn(luck) =>
        if s.toServer != [] {
          ServerTravel(s, luck);
          TravelKept(s, Next(s, step));
        }
      case _ =>
        SameTravel(s, Next(s, step));
        TravelKept(s, Next(s, step));
    }
  }

  lemma {:induction false} InvParts(s: State)
    requires Inv(s)
    ensures Mapped(s) && TravelOk(s) && RequestsOk(s) && AnswersOk(s) && MailOk(s) && Sound(s.server)
  {
  }

  lemma {:induction false} SameTravel(s: State, t: State)
    requires t.written == s.written && t.toServer == s.toServer && t.queue == s.queue
    ensures Travel(t) == Travel(s)
  {
  }

  lemma {:induction false} TravelWithCommand(s: State, t: State, c: Command)
    requires t.written == s.written && t.toServer == s.toServer && t.queue == s.queue + [c]
    ensures Travel(t) == Travel(s) + if c.Request? then [c.id] else []
  {
    CommandIdsConcat(s.queue, [c]);
    OneId(c, Blank, Exchange(Blank, Failure(None, ParseError)));
  }

  lemma {:induction false} NotifyTravel(s: State, step: Step)
    requires TravelOk(s) && (step.Notify? || step.AskStop?)
    ensures TravelOk(Next(s, step))
  {
    hide Travel;
    if !s.writer.WriterGone? {
      TravelWithCommand(s, Next(s, step), if step.Notify? then Notice(step.verb, step.good) else StopWriting);
      assert Travel(s) + [] == Travel(s);
    }
  }

  lemma {:induction false} EnqueueTravel(s: State, k: Channel)
    requires TravelOk(s) && Mapped(s)
    ensures TravelOk(Next(s, Enqueue(k)))
  {
    hide Travel;
    var t := Next(s, Enqueue(k));
    StepGrows(s, Enqueue(k));
    if In(s, k, Registered) && !s.writer.WriterGone? {
      var c := s.callers[k];
      assert CallerOk(s, k);
      TravelWithCommand(s, t, Request(c.id, c.verb, c.good, k));
      assert c.id !in Travel(s);
      forall id | id in Travel(t)
        ensures WasSent(t, id)
      {
        assert id in Travel(s) || id == c.id;
      }
    } else {
      SameTravel(s, t);
      TravelKept(s, t);
    }
  }

  /** Taking a command moves its id to the pipe, or drops it. */
  lemma {:induction false} TakeTravel(s: State, luck: WriteLuck)
    requires s.writer.WriterIdle? && s.queue != [] && TravelOk(s)
    ensures var t := Next(s, TakeCommand(luck));
            NoRepeats(Travel(t)) && forall id | id in Travel(t) :: id in Travel(s)
  {
    hide CommandIds, LineIds, AnsweredIds, NoRepeats;
    var t, command := Next(s, TakeCommand(luck)), s.queue[0];
    var a, b, c := AnsweredIds(s.written), LineIds(s.toServer), CommandIds(s.queue[1..]);
    FirstCommand(s.queue);
    if command.StopWriting? {
      assert Travel(s) == (a + b) + c;
      PrefixDistinct(a + b, c);
      NoCommands();
      assert Travel(t) == a + b + [] == a + b;
    } else {
      var line := if s.torn then Garbage else CommandLine(command);
      LineIdsConcat(s.toServer, [line]);
      OneId(command, line, Exchange(Blank, Failure(None, ParseError)));
      if command.Request? {
        assert Travel(s) == (a + b) + [command.id] + c;
        DropOne(a + b, command.id, c);
        assert Travel(t) == (a + b) + c || Travel(t) == (a + b) + [command.id] + c;
      } else {
        assert Travel(s) == (a + b) + c;
        assert Travel(t) == (a + b) + c;
      }
    }
  }

  lemma {:induction false} FirstCommand(queue: seq<Command>)
    requires queue != []
    ensures CommandIds(queue) == (if queue[0].Request? then [queue[0].id] else []) + CommandIds(queue[1..])
  {
  }

  lemma {:induction false} NoCommands()
    ensures CommandIds([]) == []
  {
  }

  lemma {:induction false} FirstLine(lines: seq<Line>)
    requires lines != []
    ensures LineIds(lines)
         == (if lines[0].Call? && lines[0].id.Some? then [lines[0].id.value] else []) + LineIds(lines[1..])
  {
  }

  /** The server answers the first line under its own id or not at all. */
  lemma {:induction false} ServerTravel(s: State, luck: Luck)
    requires s.toServer != [] && TravelOk(s) && Sound(s.server)
    ensures var t := Next(s, ServerTurn(luck));
            NoRepeats(Travel(t)) && forall id | id in Travel(t) :: id in Travel(s)
  {
    hide CommandIds, LineIds, AnsweredIds, NoRepeats, Serve, Sound;
    var t, line := Next(s, ServerTurn(luck)), s.toServer[0];
    var answers := Serve(s.server, line, luck).1;
    ServeSound(s.server, line, luck);
    FirstLine(s.toServer);
    var a, b, c := AnsweredIds(s.written), LineIds(s.toServer[1..]), CommandIds(s.queue);
    if answers != [] {
      AnsweredIdsConcat(s.written, [Exchange(line, answers[0])]);
      OneId(StopWriting, Blank, Exchange(line, answers[0]));
    }
    if line.Call? && line.id.Some? {
      assert Travel(s) == a + [line.id.value] + (b + c);
      DropOne(a, line.id.value, b + c);
      assert Travel(t) == a + (b + c) || Travel(t) == a + [line.id.value] + (b + c);
    } else {
      assert Travel(s) == a + b + c && Travel(t) == a + b + c;
    }
  }

  // ----- Requests and answers belong to their callers -----

  lemma {:induction false} RequestsStep(s: State, step: Step)
    requires RequestsOk(s) && (step.Enqueue? ==> CallersOk(s))
    ensures RequestsOk(Next(s, step))
  {
    hide Grows, Serve, SomeoneWillSend;
    var t := Next(s, step);
    StepGrows(s, step);
    if step.Enqueue? && In(s, step.caller, Registered) {
      assert CallerOk(s, step.caller);
    }
    QueueKept(s, t, step);
    LinesKept(s, t, step);
  }

  lemma {:induction false} QueueKept(s: State, t: State, step: Step)
    requires RequestsOk(s) && t == Next(s, step) && Grows(s, t)
    requires step.Enqueue? && In(s, step.caller, Registered) ==> s.callers[step.caller].id == step.caller + 1
    ensures forall i | 0 <= i < |t.queue| && t.queue[i].Request? ::
              Known(t, t.queue[i].id) && t.queue[i].reply == t.queue[i].id - 1
              && CommandLine(t.queue[i]) == LineOf(t.callers[t.queue[i].reply])
  {
    hide Next;
    forall i | 0 <= i < |t.queue| && t.queue[i].Request?
      ensures Known(t, t.queue[i].id) && t.queue[i].reply == t.queue[i].id - 1
              && CommandLine(t.queue[i]) == LineOf(t.callers[t.queue[i].reply])
    {
      CommandComesFrom(s, step, i);
    }
  }

  /** A queued request was queued before, or is the one its caller just enqueued. */
  lemma {:induction false} CommandComesFrom(s: State, step: Step, i: nat)
    requires i < |Next(s, step).queue| && Next(s, step).queue[i].Request?
    ensures var c := Next(s, step).queue[i];
            || c in s.queue
            || (step.Enqueue? && In(s, step.caller, Registered) && c.reply == step.caller
                && c.id == s.callers[step.caller].id && CommandLine(c) == LineOf(s.callers[step.caller]))
  {
    hide Serve, HasSender, AnswerId;
  }

  lemma {:induction false} LinesKept(s: State, t: State, step: Step)
    requires RequestsOk(s) && t == Next(s, step) && Grows(s, t)
    ensures forall i | 0 <= i < |t.toServer| && t.toServer[i].Call? && t.toServer[i].id.Some? ::
              Known(t, t.toServer[i].id.value) && t.toServer[i] == LineOf(t.callers[t.toServer[i].id.value - 1])
  {
    hide Next;
    forall i | 0 <= i < |t.toServer| && t.toServer[i].Call? && t.toServer[i].id.Some?
      ensures Known(t, t.toServer[i].id.value) && t.toServer[i] == LineOf(t.callers[t.toServer[i].id.value - 1])
    {
      LineComesFrom(s, step, i);
    }
  }

  /** A line in the pipe was there before, or is the next command's. */
  lemma {:induction false} LineComesFrom(s: State, step: Step, i: nat)
    requires i < |Next(s, step).toServer| && Next(s, step).toServer[i].Call?
    ensures var line := Next(s, step).toServer[i];
            || line in s.toServer
            || (s.queue != [] && !s.queue[0].StopWriting? && line == CommandLine(s.queue[0]))
  {
    hide Serve, HasSender, AnswerId, CommandLine;
  }

  lemma {:induction false} AnswersStep(s: State, step: Step)
    requires Inv(s)
    ensures AnswersOk(Next(s, step))
  {
    hide Inv, Grows, Serve, Mapped, TravelOk, MailOk, Sound;
    var t := Next(s, step);
    StepGrows(s, step);
    InvParts(s);
    if step.ServerTurn? && s.toServer != [] {
      ServedOwn(s, step.serverLuck);
    } else {
      IncomingKept(s, t, step);
    }
    HeldKept(s, t, step);
    FailedKept(s, t, step);
  }

  ghost predicate IncomingOwn(s: State, line: Incoming) {
    line.FromLoop? && AnswerId(line.answer).Some? ==>
      WasSent(s, AnswerId(line.answer).value) && Wrote(s, AnswerId(line.answer).value - 1, line.answer)
  }

  lemma {:induction false} OwnGrows(s: State, t: State, line: Incoming)
    requires Grows(s, t) && IncomingOwn(s, line)
    ensures IncomingOwn(t, line)
  {
    hide Wrote;
    if line.FromLoop? && AnswerId(line.answer).Some? {
      WroteGrows(s, t, AnswerId(line.answer).value - 1, line.answer);
    }
  }

  lemma {:induction false} IncomingKept(s: State, t: State, step: Step)
    requires AnswersOk(s) && Grows(s, t) && t == Next(s, step) && (step.ServerTurn? ==> s.toServer == [])
    ensures forall i | 0 <= i < |t.toClient| :: IncomingOwn(t, t.toClient[i])
  {
    hide Grows, Wrote;
    forall i | 0 <= i < |t.toClient|
      ensures IncomingOwn(t, t.toClient[i])
    {
      if step.ReadLine? && t.toClient != s.toClient {
        assert t.toClient[i] == s.toClient[i + 1];
        assert IncomingOwn(s, s.toClient[i + 1]);
        OwnGrows(s, t, t.toClient[i]);
      } else if i < |s.toClient| {
        assert t.toClient[i] == s.toClient[i];
        assert IncomingOwn(s, s.toClient[i]);
        OwnGrows(s, t, t.toClient[i]);
      }
    }
  }

  /** What the server writes answers the line it took, and that line is its caller's. */
  lemma {:induction false} ServedOwn(s: State, luck: Luck)
    requires s.toServer != [] && TravelOk(s) && RequestsOk(s) && AnswersOk(s) && Sound(s.server)
    ensures var t := Next(s, ServerTurn(luck));
            forall i | 0 <= i < |t.toClient| :: IncomingOwn(t, t.toClient[i])
  {
    hide Sound, Grows, NoRepeats, LineIds, Serve;
    var t, line := Next(s, ServerTurn(luck)), s.toServer[0];
    var answers := Serve(s.server, line, luck).1;
    ServeSound(s.server, line, luck);
    StepGrows(s, ServerTurn(luck));
    forall i | 0 <= i < |t.toClient|
      ensures IncomingOwn(t, t.toClient[i])
    {
      if i < |s.toClient| {
        assert t.toClient[i] == s.toClient[i];
        assert IncomingOwn(s, s.toClient[i]);
        OwnGrows(s, t, t.toClient[i]);
      } else if AnswerId(answers[0]).Some? {
        assert t.toClient[i] == FromLoop(answers[0]);
        FirstLineSent(s);
        assert t.written[|s.written|] == Exchange(line, answers[0]);
      }
    }
  }

  lemma {:induction false} FirstLineSent(s: State)
    requires TravelOk(s) && s.toServer != [] && s.toServer[0].Call? && s.toServer[0].id.Some?
    ensures WasSent(s, s.toServer[0].id.value)
  {
    hide NoRepeats;
    var id := s.toServer[0].id.value;
    assert LineIds(s.toServer)[0] == id;
    assert Travel(s)[|AnsweredIds(s.written)|] == id;
  }

  lemma {:induction false} HeldKept(s: State, t: State, step: Step)
    requires AnswersOk(s) && PendingOk(s) && Grows(s, t) && t == Next(s, step)
    ensures t.reader.Holding? ==> t.reader.reply < |t.callers| && Wrote(t, t.reader.reply, t.reader.answer)
  {
    hide Grows, Wrote, Next;
    if t.reader.Holding? {
      HeldComesFrom(s, step);
      WroteGrows(s, t, t.reader.reply, t.reader.answer);
      assert |s.callers| <= |t.callers| by {
        MoreCallers(s, t);
      }
    }
  }

  lemma {:induction false} MoreCallers(s: State, t: State)
    requires Grows(s, t)
    ensures |s.callers| <= |t.callers|
  {
  }

  /** What the reader has in hand it had before, or it just read it. */
  lemma {:induction false} HeldComesFrom(s: State, step: Step)
    requires Next(s, step).reader.Holding?
    ensures var held := Next(s, step).reader;
            || s.reader == held
            || (&& s.toClient != [] && s.toClient[0] == FromLoop(held.answer) && AnswerId(held.answer).Some?
                && AnswerId(held.answer).value in s.pending && held.reply == s.pending[AnswerId(held.answer).value])
  {
    hide Serve;
  }

  lemma {:induction false} FailedKept(s: State, t: State, step: Step)
    requires AnswersOk(s) && RequestsOk(s) && CallersOk(s) && Grows(s, t) && t == Next(s, step)
    ensures t.writer.Failing? || t.writer.Telling? ==>
              t.writer.reply < |t.callers| && t.callers[t.writer.reply].id in t.failed
  {
    hide Wrote, Serve;
    if step.TakeCommand? && s.writer.WriterIdle? && s.queue != [] && s.queue[0].Request? {
      assert CallerOk(s, s.queue[0].reply);
    }
  }

  lemma {:induction false} MailStep(s: State, step: Step)
    requires Inv(s)
    ensures MailOk(Next(s, step))
  {
    hide Inv, Grows, Serve, Mapped, TravelOk, Sound, RequestsOk, Meant;
    var t := Next(s, step);
    StepGrows(s, step);
    InvParts(s);
    forall k | 0 <= k < |t.callers|
      ensures forall m | m in t.callers[k].inbox :: Meant(t, k, m)
      ensures GotMeant(t, k)
    {
      InboxKept(s, t, step, k);
      OutcomeKept(s, t, step, k);
    }
  }

  lemma {:induction false} InboxKept(s: State, t: State, step: Step, k: Channel)
    requires MailOk(s) && AnswersOk(s) && Grows(s, t) && t == Next(s, step) && k < |t.callers|
    ensures forall m | m in t.callers[k].inbox :: Meant(t, k, m)
  {
    hide Grows, Serve, Wrote;
    forall m | m in t.callers[k].inbox
      ensures Meant(t, k, m)
    {
      if k < |s.callers| && m in s.callers[k].inbox {
        MeantGrows(s, t, k, m);
      } else {
        SentIsMeant(s, step, k, m);
        MeantGrows(s, t, k, m);
      }
    }
  }

  lemma {:induction false} SentIsMeant(s: State, step: Step, k: Channel, m: Message)
    requires AnswersOk(s) && k < |Next(s, step).callers|
    requires m in Next(s, step).callers[k].inbox && (k < |s.callers| ==> m !in s.callers[k].inbox)
    ensures k < |s.callers| && Meant(s, k, m)
  {
    hide Next, Wrote;
    SentByThread(s, step, k, m);
  }

  /** A new message in an inbox is the one a thread had in hand for that caller. */
  lemma {:induction false} SentByThread(s: State, step: Step, k: Channel, m: Message)
    requires k < |Next(s, step).callers|
    requires m in Next(s, step).callers[k].inbox && (k < |s.callers| ==> m !in s.callers[k].inbox)
    ensures (s.writer == Telling(k) && m == NotWritten)
            || (s.reader.Holding? && s.reader.reply == k && m == Answered(s.reader.answer))
  {
    hide Next;
    if OfThread(step) {
      ThreadSends(s, step, k, m);
    } else {
      CallersSendNothing(s, step, k);
    }
  }

  lemma {:induction false} ThreadSends(s: State, step: Step, k: Channel, m: Message)
    requires OfThread(step) && k < |Next(s, step).callers|
    requires m in Next(s, step).callers[k].inbox && (k < |s.callers| ==> m !in s.callers[k].inbox)
    ensures (s.writer == Telling(k) && m == NotWritten)
            || (s.reader.Holding? && s.reader.reply == k && m == Answered(s.reader.answer))
  {
    hide Serve, HasSender, CommandLine, AnswerId, Move;
  }

  lemma {:induction false} CallersSendNothing(s: State, step: Step, k: Channel)
    requires !OfThread(step) && k < |Next(s, step).callers|
    ensures Next(s, step).callers[k].inbox == if k < |s.callers| then s.callers[k].inbox else []
  {
    hide TakeNext, ServeNext, ReadNext, HasSender, Send;
  }

  lemma {:induction false} OutcomeKept(s: State, t: State, step: Step, k: Channel)
    requires MailOk(s) && Grows(s, t) && t == Next(s, step) && k < |t.callers|
    ensures GotMeant(t, k)
  {
    hide Next, Meant, Grows;
    var phase := t.callers[k].phase;
    if phase.Returned? && phase.outcome.Got? {
      OutcomeComesFrom(s, step, k);
      assert GotMeant(s, k);
      MeantGrows(s, t, k, phase.outcome.message);
    }
  }

  /** What a caller got it already had, as its result or in its channel. */
  lemma {:induction false} OutcomeComesFrom(s: State, step: Step, k: Channel)
    requires k < |Next(s, step).callers| && Next(s, step).callers[k].phase.Returned?
    requires Next(s, step).callers[k].phase.outcome.Got?
    ensures k < |s.callers|
    ensures s.callers[k].phase == Next(s, step).callers[k].phase
            || Next(s, step).callers[k].phase.outcome.message in s.callers[k].inbox
  {
    hide TakeNext, ServeNext, ReadNext, HasSender, Send;
    if OfThread(step) {
      ThreadKeepsPhases(s, step, k);
    }
  }

  lemma {:induction false} ThreadKeepsPhases(s: State, step: Step, k: Channel)
    requires OfThread(step) && k < |Next(s, step).callers|
    ensures k < |s.callers| && Next(s, step).callers[k].phase == s.callers[k].phase
  {
    hide Serve, HasSender, CommandLine, AnswerId, Move;
  }

  // ----- Every run -----

  /** Every step of every thread keeps the invariant, below two to the 64 requests. */
  lemma {:induction false} NextKeeps(s: State, step: Step)
    requires Inv(s) && s.nextId + 1 < U64_LIMIT
    ensures Inv(Next(s, step))
  {
    hide Mapped, TravelOk, RequestsOk, AnswersOk, MailOk, Sound, Next;
    if OfThread(step) {
      MappedByThread(s, step);
    } else {
      MappedByCaller(s, step);
    }
    TravelStep(s, step);
    assert CallersOk(s) by {
      MappedParts(s);
    }
    RequestsStep(s, step);
    AnswersStep(s, step);
    MailStep(s, step);
    ServerStaysSound(s, step);
  }

  lemma {:induction false} MappedParts(s: State)
    requires Mapped(s)
    ensures CallersOk(s) && PendingOk(s) && ThreadsOk(s)
  {
  }

  lemma {:induction false} ServerStaysSound(s: State, step: Step)
    requires Sound(s.server)
    ensures Sound(Next(s, step).server)
  {
    hide Serve, Sound;
    if step.ServerTurn? && s.toServer != [] {
      ServeSound(s.server, s.toServer[0], step.serverLuck);
    }
  }

  function Requests(steps: seq<Step>): nat {
    if steps == [] then 0 else (if steps[0].Allocate? then 1 else 0) + Requests(steps[1..])
  }

  lemma {:induction false} NextIdStep(s: State, step: Step)
    requires s.nextId + 1 < U64_LIMIT
    ensures Next(s, step).nextId == s.nextId + (if step.Allocate? then 1 else 0)
  {
    hide Serve;
  }

  lemma {:induction false} RunKeeps(s: State, steps: seq<Step>)
    requires Inv(s) && s.nextId + Requests(steps) + 1 < U64_LIMIT
    ensures Inv(Run(s, steps))
    decreases |steps|
  {
    hide Inv, Next;
    if steps != [] {
      NextKeeps(s, steps[0]);
      NextIdStep(s, steps[0]);
      RunKeeps(Next(s, steps[0]), steps[1..]);
    }
  }

  lemma {:induction false} Reachable(steps: seq<Step>)
    requires Requests(steps) + 2 < U64_LIMIT
    ensures Inv(Run(BEGIN, steps))
  {
    RunKeeps(BEGIN, steps);
  }

  // ----- Main results -----

  /** Ids drawn along a run are pairwise distinct. */
  lemma {:induction false} IdsDistinct(steps: seq<Step>, i: nat, j: nat)
    requires Requests(steps) + 2 < U64_LIMIT && i < j < |Run(BEGIN, steps).callers|
    ensures Run(BEGIN, steps).callers[i].id != Run(BEGIN, steps).callers[j].id
  {
    Reachable(steps);
    var s := Run(BEGIN, steps);
    assert CallerOk(s, i) && CallerOk(s, j);
  }

  /** An answer the server wrote to a caller's line is the only one it ever wrote under that id. */
  lemma {:induction false} WroteOnce(s: State, k: Channel, answer: Answer)
    requires k < |s.callers| && NoRepeats(AnsweredIds(s.written)) && Wrote(s, k, answer)
    ensures Own(s, k, Answered(answer))
  {
    var e: nat :| e < |s.written| && s.written[e] == Exchange(LineOf(s.callers[k]), answer);
    forall i | 0 <= i < |s.written| && i != e
      ensures AnswerId(s.written[i].answer) != Some(s.callers[k].id)
    {
      if i > e {
        AnsweredApart(s.written, e, i);
      } else if AnswerId(s.written[i].answer).Some? {
        AnsweredApart(s.written, i, e);
      }
    }
    assert OwnExchange(s, k, e);
  }

  lemma {:induction false} AnsweredHas(written: seq<Exchange>, i: nat)
    requires i < |written| && AnswerId(written[i].answer).Some?
    ensures AnswerId(written[i].answer).value in AnsweredIds(written)
  {
    if i > 0 {
      AnsweredHas(written[1..], i - 1);
    }
  }

  lemma {:induction false} AnsweredApart(written: seq<Exchange>, i: nat, j: nat)
    requires i < j < |written| && NoRepeats(AnsweredIds(written)) && AnswerId(written[i].answer).Some?
    ensures AnswerId(written[i].answer) != AnswerId(written[j].answer)
  {
    var rest := AnsweredIds(written[1..]);
    if i > 0 {
      assert forall a, b | 0 <= a < b < |rest| :: rest[a] != rest[b] by {
        var skip := |AnsweredIds(written)| - |rest|;
        assert forall a | 0 <= a < |rest| :: rest[a] == AnsweredIds(written)[skip + a];
      }
      AnsweredApart(written[1..], i - 1, j - 1);
    } else if AnswerId(written[j].answer).Some? {
      AnsweredHas(written[1..], j - 1);
      var a :| 0 <= a < |rest| && rest[a] == AnswerId(written[j].answer).value;
      var ids := AnsweredIds(written);
      assert ids[0] == AnswerId(written[0].answer).value && ids[a + 1] == rest[a];
      assert ids[0] != ids[a + 1];
    }
  }

  /**
   Under every interleaving with fewer than two to the 64 requests: a caller that returns has left the pending map,
   never finds its channel hung up, and what it got is the one answer the server wrote to its own line, or the
   failure of its own write. Whoever waits still has a sender. The server answers each id at most once, starts at
   most one session and enqueues nothing before it.
   */
  lemma {:induction false} EveryInterleaving(steps: seq<Step>)
    requires Requests(steps) + 2 < U64_LIMIT
    ensures var s := Run(BEGIN, steps);
            && (forall k | 0 <= k < |s.callers| && s.callers[k].phase.Returned? ::
                  && s.callers[k].id !in s.pending && !s.callers[k].phase.outcome.Disconnected?
                  && (s.callers[k].phase.outcome.Got? ==> Own(s, k, s.callers[k].phase.outcome.message)))
            && (forall k | 0 <= k < |s.callers| && s.callers[k].phase.Waiting? && s.callers[k].inbox == [] ::
                  HasSender(s, k))
            && NoRepeats(AnsweredIds(s.written)) && (forall id | id in AnsweredIds(s.written) :: WasSent(s, id))
            && s.server.started <= 1 && (forall i | 0 <= i < |s.server.enqueued| :: s.server.enqueued[i] == 1)
  {
    hide Next, Run, AnswersOk, RequestsOk, PendingOk;
    Reachable(steps);
    var s := Run(BEGIN, steps);
    var rest := LineIds(s.toServer) + CommandIds(s.queue);
    assert Travel(s) == AnsweredIds(s.written) + rest;
    PrefixDistinct(AnsweredIds(s.written), rest);
    forall k | 0 <= k < |s.callers|
      ensures s.callers[k].phase.Returned? ==>
                && s.callers[k].id !in s.pending && !s.callers[k].phase.outcome.Disconnected?
                && (s.callers[k].phase.outcome.Got? ==> Own(s, k, s.callers[k].phase.outcome.message))
      ensures s.callers[k].phase.Waiting? && s.callers[k].inbox == [] ==> HasSender(s, k)
    {
      ReturnedOk(s, k);
    }
  }

  lemma {:induction false} ReturnedOk(s: State, k: Channel)
    requires CallersOk(s) && MailOk(s) && NoRepeats(AnsweredIds(s.written)) && k < |s.callers|
    ensures s.callers[k].phase.Returned? ==>
              && s.callers[k].id !in s.pending && !s.callers[k].phase.outcome.Disconnected?
              && (s.callers[k].phase.outcome.Got? ==> Own(s, k, s.callers[k].phase.outcome.message))
    ensures s.callers[k].phase.Waiting? && s.callers[k].inbox == [] ==> HasSender(s, k)
  {
    hide Wrote, NoRepeats, Own;
    assert CallerOk(s, k);
    var phase := s.callers[k].phase;
    if phase.Returned? && phase.outcome.Got? {
      if phase.outcome.message.Answered? {
        WroteOnce(s, k, phase.outcome.message.answer);
      } else {
        assert Own(s, k, NotWritten) by {
          NotWrittenOwn(s, k);
        }
      }
    }
    assert k + 1 in s.pending && s.pending[k + 1] == k ==> HasSender(s, k);
  }

  lemma {:induction false} NotWrittenOwn(s: State, k: Channel)
    requires k < |s.callers| && s.callers[k].id in s.failed
    ensures Own(s, k, NotWritten)
  {
  }

  /** The caller a step may change: its own thread's, or the one whose answer or failure a thread has in hand. */
  predicate MayChange(s: State, step: Step, k: Channel)
    requires k < |s.callers|
  {
    match step
    case Register(j) => j == k
    case Enqueue(j) => j == k
    case GiveUp(j) => j == k
    case Receive(j) => j == k
    case Expire(j) => j == k
    case Forget(j) => j == k
    case TellCaller => s.writer.Telling? && s.writer.reply == k && s.callers[k].id in s.failed
    case Hand => s.reader.Holding? && AnswerId(s.reader.answer) == Some(s.callers[k].id)
    case _ => false
  }

  /**
   In every run each step changes at most one call: one that has not returned, and when it is the reader that changes
   it, the one whose id the line carries.
   */
  lemma {:induction false} OnlyOwnerChanges(steps: seq<Step>, step: Step, k: Channel)
    requires Requests(steps) + 2 < U64_LIMIT && k < |Run(BEGIN, steps).callers|
    ensures var s := Run(BEGIN, steps);
            Next(s, step).callers[k] != s.callers[k] ==> MayChange(s, step, k) && !s.callers[k].phase.Returned?
  {
    hide Run, Serve, TravelOk, RequestsOk, MailOk, Sound, PendingOk;
    Reachable(steps);
    var s := Run(BEGIN, steps);
    StepGrows(s, step);
    if step.Hangup? {
      NeverHangsUp(s, step.caller);
    }
  }

  /**
   Late lines complete nobody. Once a call has returned, in every continuation it stays as it is, and no other call
   ever has a message that carries its id, neither in its channel nor as its result.
   */
  lemma {:induction false} LateLinesCompleteNobody(steps: seq<Step>, more: seq<Step>, k: Channel, j: Channel,
                                                   answer: Answer)
    requires Requests(steps + more) + 2 < U64_LIMIT
    requires k < |Run(BEGIN, steps).callers| && Run(BEGIN, steps).callers[k].phase.Returned?
    requires j < |Run(BEGIN, steps + more).callers| && j != k
    ensures var s, t := Run(BEGIN, steps), Run(BEGIN, steps + more);
            && k < |t.callers| && t.callers[k] == s.callers[k]
            && (Answered(answer) in t.callers[j].inbox || t.callers[j].phase == Returned(Got(Answered(answer)))
                ==> AnswerId(answer) != Some(s.callers[k].id))
  {
    hide Next, TravelOk, RequestsOk, AnswersOk, Sound, PendingOk, ThreadsOk;
    var s, t := Run(BEGIN, steps), Run(BEGIN, steps + more);
    RunConcat(BEGIN, steps, more);
    RunGrows(s, more);
    Reachable(steps + more);
    assert CallerOk(t, j) && CallerOk(t, k);
  }

  lemma {:induction false} RunConcat(s: State, a: seq<Step>, b: seq<Step>)
    ensures Run(s, a + b) == Run(Run(s, a), b)
    decreases |a|
  {
    hide Next;
    if a == [] {
      assert a + b == b;
    } else {
      RunConcat(Next(s, a[0]), a[1..], b);
      assert (a + b)[1..] == a[1..] + b;
    }
  }

  /** A request whose write breaks off inside its line. */
  const TORN: seq<Step> :=
    [Allocate(Unknown, true), Register(0), Enqueue(0), TakeCommand(FailedInside), LeavePending, TellCaller]

  /** A second request, written whole, up to the reading of the server's answer. */
  const WHOLE: seq<Step> :=
    [Allocate(Unknown, true), Register(1), Enqueue(1), TakeCommand(Written), ServerTurn(Luck(true, true)), ReadLine]

  const AFTER_TORN: State :=
    BEGIN.(nextId := 2, callers := [Caller(1, Unknown, true, Waiting, [NotWritten])], torn := true, failed := {1})

  /**
   One failed write can cost two calls: the second request is written whole behind the piece of the first, the server
   answers the two together with a null id, and the second caller is left to its timeout.
   */
  lemma {:induction false} TornLineSwallowsNext()
    ensures var s := Run(BEGIN, TORN + WHOLE);
            && s.written == [Exchange(Garbage, Failure(None, ParseError))] && s.failed == {1}
            && s.queue == [] && s.toServer == [] && s.toClient == [] && s.reader.ReaderIdle?
            && |s.callers| == 2 && s.callers[1] == Caller(2, Unknown, true, Waiting, []) && s.pending == map[2 := 1]
  {
    hide Run, Next;
    FirstFails();
    SecondIsSwallowed();
    RunConcat(BEGIN, TORN, WHOLE);
  }

  lemma {:induction false} FirstFails()
    ensures Run(BEGIN, TORN) == AFTER_TORN
  {
    hide Run;
    var c := Caller(1, Unknown, true, Allocated, []);
    var s1 := BEGIN.(nextId := 2, callers := [c]);
    var s2 := s1.(callers := [c.(phase := Registered)], pending := map[1 := 0]);
    var s3 := s2.(callers := [c.(phase := Waiting)], queue := [Request(1, Unknown, true, 0)]);
    var s4 := s3.(queue := [], torn := true, failed := {1}, writer := Failing(1, 0));
    var s5 := s4.(pending := map[], writer := Telling(0));
    var s6 := s5.(callers := [c.(phase := Waiting, inbox := [NotWritten])], writer := WriterIdle);
    assert Next(BEGIN, TORN[0]) == s1;
    assert Next(s1, TORN[1]) == s2;
    assert Next(s2, TORN[2]) == s3;
    assert Next(s3, TORN[3]) == s4;
    assert Next(s4, TORN[4]) == s5;
    assert [] + [NotWritten] == [NotWritten] && s5.callers[0 := s6.callers[0]] == s6.callers;
    assert Next(s5, TORN[5]) == s6;
    SixSteps(BEGIN, TORN, s1, s2, s3, s4, s5, s6);
  }

  lemma {:induction false} SixSteps(s: State, steps: seq<Step>, s1: State, s2: State, s3: State, s4: State, s5: State,
                                    s6: State)
    requires |steps| == 6 && Next(s, steps[0]) == s1 && Next(s1, steps[1]) == s2 && Next(s2, steps[2]) == s3
    requires Next(s3, steps[3]) == s4 && Next(s4, steps[4]) == s5 && Next(s5, steps[5]) == s6
    ensures Run(s, steps) == s6
  {
    hide Next;
    assert Run(s5, steps[5..]) == Run(s6, steps[5..][1..]) == s6;
    assert steps[4..][1..] == steps[5..] && steps[3..][1..] == steps[4..] && steps[2..][1..] == steps[3..];
    assert steps[1..][1..] == steps[2..];
    assert Run(s4, steps[4..]) == s6;
    assert Run(s3, steps[3..]) == s6;
    assert Run(s2, steps[2..]) == s6;
    assert Run(s1, steps[1..]) == s6;
  }

  lemma {:induction false} SecondIsSwallowed()
    ensures Run(AFTER_TORN, WHOLE)
         == BEGIN.(nextId := 3, callers := [AFTER_TORN.callers[0], Caller(2, Unknown, true, Waiting, [])],
                   pending := map[2 := 1], failed := {1}, written := [Exchange(Garbage, Failure(None, ParseError))])
  {
    hide Run;
    var s := AFTER_TORN;
    var old1, c := s.callers[0], Caller(2, Unknown, true, Allocated, []);
    var s1 := s.(nextId := 3, callers := [old1, c]);
    var s2 := s1.(callers := [old1, c.(phase := Registered)], pending := map[2 := 1]);
    var s3 := s2.(callers := [old1, c.(phase := Waiting)], queue := [Request(2, Unknown, true, 1)]);
    var s4 := s3.(queue := [], torn := false, toServer := [Garbage]);
    var answer := Failure(None, ParseError);
    var s5 := s4.(toServer := [], written := [Exchange(Garbage, answer)], toClient := [FromLoop(answer)]);
    var s6 := s5.(toClient := []);
    assert Next(s, WHOLE[0]) == s1;
    assert Next(s1, WHOLE[1]) == s2;
    assert Next(s2, WHOLE[2]) == s3;
    assert Next(s3, WHOLE[3]) == s4;
    assert Next(s4, WHOLE[4]) == s5;
    assert Next(s5, WHOLE[5]) == s6;
    SixSteps(s, WHOLE, s1, s2, s3, s4, s5, s6);
  }
}
