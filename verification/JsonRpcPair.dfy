/**
 The JSON-RPC client and server together: caller threads, a writer thread, a reader thread and the server loop,
 interleaved step by step over a shared pending map and two first-in first-out pipes.
 */
module JsonRpcPair {
  import opened Wrappers
  import opened Text
  import opened JsonRpcServer

  /** A caller's response channel. Each call of `request` opens its own, in the order in which ids are drawn. */
  type Channel = nat

  /** What can be sent on a response channel: the server's answer, or the writer's error. */
  datatype Message = Answered(answer: Answer) | NotWritten

  /** What `request` returns. */
  datatype Outcome = Got(message: Message) | TimedOut | WriterStopped | Disconnected

  /** How far a call is. `Unsent` and `Late` still have to leave the pending map. */
  datatype Phase = Allocated | Registered | Waiting | Unsent | Late | Returned(outcome: Outcome)

  /** One call of `request`: the id it drew, what it asks, how far it is, and its channel's unread messages. */
  datatype Caller = Caller(id: Id, verb: Method, good: bool, phase: Phase, inbox: seq<Message>)

  datatype Command =
    | Request(id: Id, verb: Method, good: bool, reply: Channel)
    | Notice(noticeVerb: Method, noticeGood: bool)
    | StopWriting

  /** The writer thread: after a failed write it first leaves the pending map, then tells the caller. */
  datatype Writer = WriterIdle | Failing(id: Id, reply: Channel) | Telling(reply: Channel) | WriterGone

  /** The reader thread: between taking a sender out of the pending map and using it, it holds the answer. */
  datatype Reader = ReaderIdle | Holding(answer: Answer, reply: Channel) | ReaderGone

  /** A line from the server: an answer or anything without an id. */
  datatype Incoming = FromLoop(answer: Answer) | Notification

  /** A line the server took and the answer it wrote to it. */
  datatype Exchange = Exchange(line: Line, answer: Answer)

  /**
   `torn` says that the pipe to the server ends in a piece of a line; `failed` are the ids of requests whose write
   failed; `written` is everything the server has answered.
   */
  datatype State = State(
    nextId: nat,
    callers: seq<Caller>,
    pending: map<Id, Channel>,
    queue: seq<Command>,
    writer: Writer,
    torn: bool,
    failed: set<Id>,
    toServer: seq<Line>,
    server: Server,
    written: seq<Exchange>,
    toClient: seq<Incoming>,
    reader: Reader)

  const BEGIN: State := State(1, [], map[], [], WriterIdle, false, {}, [], START, [], [], ReaderIdle)

  /** A write can work, or fail before the first byte, inside the line, or after it (while flushing). */
  datatype WriteLuck = Written | FailedBefore | FailedInside | FailedAfter

  datatype Step =
    | Allocate(verb: Method, good: bool)
    | Register(caller: Channel)
    | Enqueue(caller: Channel)
    | GiveUp(caller: Channel)
    | Receive(caller: Channel)
    | Hangup(caller: Channel)
    | Expire(caller: Channel)
    | Forget(caller: Channel)
    | Notify(verb: Method, good: bool)
    | AskStop
    | TakeCommand(luck: WriteLuck)
    | LeavePending
    | TellCaller
    | ServerTurn(serverLuck: Luck)
    | ServerNotifies
    | ReadLine
    | Hand
    | ReaderEnds

  // ----- One step -----

  predicate In(s: State, k: Channel, phase: Phase) {
    k < |s.callers| && s.callers[k].phase == phase
  }

  function Move(s: State, k: Channel, phase: Phase): State
    requires k < |s.callers|
  {
    s.(callers := s.callers[k := s.callers[k].(phase := phase)])
  }

  /** Sending on a channel: nothing happens when its receiver has gone. */
  function Send(s: State, k: Channel, m: Message): State {
    if k < |s.callers| && !s.callers[k].phase.Returned? then
      s.(callers := s.callers[k := s.callers[k].(inbox := s.callers[k].inbox + [m])])
    else s
  }

  /** Who holds a sender of a channel besides the caller itself. */
  predicate HasSender(s: State, k: Channel) {
    || (exists id | id in s.pending :: s.pending[id] == k)
    || (exists i | 0 <= i < |s.queue| :: s.queue[i].Request? && s.queue[i].reply == k)
    || ((s.writer.Failing? || s.writer.Telling?) && s.writer.reply == k)
    || (s.reader.Holding? && s.reader.reply == k)
  }

  /** The line of a request as the server parses it. */
  function LineOf(c: Caller): Line {
    Call(Some(c.id), c.verb, true, c.good)
  }

  function CommandLine(c: Command): Line
    requires !c.StopWriting?
  {
    if c.Request? then Call(Some(c.id), c.verb, true, c.good) else Call(None, c.noticeVerb, true, c.noticeGood)
  }

  /** The writer with its next command. What follows a piece of a line is read together with it and parses as nothing. */
  function TakeNext(s: State, luck: WriteLuck): State
    requires s.queue != []
  {
    var command, rest := s.queue[0], s.(queue := s.queue[1..]);
    if command.StopWriting? then s.(queue := [], writer := WriterGone)
    else
      var out :=
        match luck
        case FailedBefore => rest
        case FailedInside => rest.(torn := true)
        case _ => rest.(toServer := s.toServer + [if s.torn then Garbage else CommandLine(command)], torn := false);
      if luck.Written? || command.Notice? then out
      else out.(writer := Failing(command.id, command.reply), failed := s.failed + {command.id})
  }

  /** The server with its next line. */
  function ServeNext(s: State, luck: Luck): State
    requires s.toServer != []
  {
    var line := s.toServer[0];
    var (after, answers) := Serve(s.server, line, luck);
    var served := s.(toServer := s.toServer[1..], server := after);
    if answers == [] then served
    else served.(written := s.written + [Exchange(line, answers[0])], toClient := s.toClient + [FromLoop(answers[0])])
  }

  /** The reader with its next line: an answer with a pending id takes the sender out of the map. */
  function ReadNext(s: State): State
    requires s.toClient != []
  {
    var line, rest := s.toClient[0], s.(toClient := s.toClient[1..]);
    if line.Notification? || AnswerId(line.answer).None? || AnswerId(line.answer).value !in s.pending then rest
    else
      var id := AnswerId(line.answer).value;
      rest.(pending := s.pending - {id}, reader := Holding(line.answer, s.pending[id]))
  }

  /** One step of one thread. A step whose guard does not hold leaves the state alone. */
  function Next(s: State, step: Step): State {
    match step
    case Allocate(verb, good) =>
      s.(nextId := (s.nextId + 1) % U64_LIMIT, callers := s.callers + [Caller(s.nextId, verb, good, Allocated, [])])
    case Register(k) =>
      if In(s, k, Allocated) then Move(s, k, Registered).(pending := s.pending[s.callers[k].id := k]) else s
    case Enqueue(k) =>
      if !In(s, k, Registered) then s
      else if s.writer.WriterGone? then Move(s, k, Unsent)
      else
        var c := s.callers[k];
        Move(s, k, Waiting).(queue := s.queue + [Request(c.id, c.verb, c.good, k)])
    case GiveUp(k) =>
      if In(s, k, Unsent) then Move(s, k, Returned(WriterStopped)).(pending := s.pending - {s.callers[k].id}) else s
    case Receive(k) =>
      if In(s, k, Waiting) && s.callers[k].inbox != [] then Move(s, k, Returned(Got(s.callers[k].inbox[0]))) else s
    case Hangup(k) =>
      if In(s, k, Waiting) && s.callers[k].inbox == [] && !HasSender(s, k) then Move(s, k, Returned(Disconnected)) else s
    case Expire(k) =>
      if In(s, k, Waiting) && s.callers[k].inbox == [] then Move(s, k, Late) else s
    case Forget(k) =>
      if In(s, k, Late) then Move(s, k, Returned(TimedOut)).(pending := s.pending - {s.callers[k].id}) else s
    case Notify(verb, good) =>
      if s.writer.WriterGone? then s else s.(queue := s.queue + [Notice(verb, good)])
    case AskStop =>
      if s.writer.WriterGone? then s else s.(queue := s.queue + [StopWriting])
    case TakeCommand(luck) =>
      if s.writer.WriterIdle? && s.queue != [] then TakeNext(s, luck) else s
    case LeavePending =>
      if s.writer.Failing? then s.(pending := s.pending - {s.writer.id}, writer := Telling(s.writer.reply)) else s
    case TellCaller =>
      if s.writer.Telling? then Send(s, s.writer.reply, NotWritten).(writer := WriterIdle) else s
    case ServerTurn(luck) =>
      if s.toServer != [] then ServeNext(s, luck) else s
    case ServerNotifies =>
      s.(toClient := s.toClient + [Notification])
    case ReadLine =>
      if s.reader.ReaderIdle? && s.toClient != [] then ReadNext(s) else s
    case Hand =>
      if s.reader.Holding? then Send(s, s.reader.reply, Answered(s.reader.answer)).(reader := ReaderIdle) else s
    case ReaderEnds =>
      if s.reader.ReaderIdle? then s.(reader := ReaderGone) else s
  }

  function Run(s: State, steps: seq<Step>): State
    decreases |steps|
  {
    if steps == [] then s else Run(Next(s, steps[0]), steps[1..])
  }

  // ----- What is said about states -----

  predicate Started(phase: Phase) {
    phase.Waiting? || phase.Late? || phase.Returned?
  }

  /** Exchange `e` is the one time the server answered this call: its own line, under its own id. */
  predicate OwnExchange(s: State, k: Channel, e: nat)
    requires k < |s.callers|
  {
    && e < |s.written|
    && s.written[e].line == LineOf(s.callers[k])
    && AnswerId(s.written[e].answer) == Some(s.callers[k].id)
    && forall i | 0 <= i < |s.written| && i != e :: AnswerId(s.written[i].answer) != Some(s.callers[k].id)
  }

  /** A message meant for this call: the one answer the server wrote to its line, or the failure of its own write. */
  ghost predicate Own(s: State, k: Channel, m: Message)
    requires k < |s.callers|
  {
    match m
    case Answered(answer) => exists e: nat :: OwnExchange(s, k, e) && s.written[e].answer == answer
    case NotWritten => s.callers[k].id in s.failed
  }
}
