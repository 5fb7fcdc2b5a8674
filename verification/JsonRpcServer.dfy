/** The agent server's side of the JSON-RPC pipe: one line in, at most one line out. */
module JsonRpcServer {
  import opened Wrappers

  type Id = nat

  /** The body of a request as far as the loop looks at it; `good` says whether its parameters decode. */
  datatype Method = Initialize | SessionRequest | Shutdown | Unknown

  datatype Line =
    | Blank
    | Garbage
    | Call(id: Option<Id>, verb: Method, params: bool, good: bool)

  datatype Code = ParseError | AlreadyInitialized | InvalidParams | InitializeFailed | NotInitialized | UnknownMethod

  /** A line written by the loop. An id of None is the JSON null. */
  datatype Answer = Result(to: Id) | Failure(about: Option<Id>, code: Code)

  /**
   `runtime` is whether a session runs; `started` counts the sessions ever started; `enqueued` lists the requests
   handed to the session, each with the number of sessions started before it.
   */
  datatype Server = Server(runtime: bool, started: nat, enqueued: seq<nat>, stopped: bool)

  const START: Server := Server(false, 0, [], false)

  /** The environment of one line: whether the session accepts a request, and whether writing works. */
  datatype Luck = Luck(accepts: bool, writes: bool)

  function Results(id: Option<Id>): seq<Answer> {
    if id.Some? then [Result(id.value)] else []
  }

  /** What the loop does with a line before the answer is written; the flag says whether the loop ends. */
  function React(s: Server, line: Line, accepts: bool): (Server, seq<Answer>) {
    match line
    case Blank => (s, [])
    case Garbage => (s, [Failure(None, ParseError)])
    case Call(id, verb, params, good) =>
      match verb
      case Initialize =>
        if s.runtime then (s, [Failure(id, AlreadyInitialized)])
        else if !params then (s, [Failure(id, InvalidParams)])
        else if good then (s.(runtime := true, started := s.started + 1), Results(id))
        else (s, [Failure(id, InitializeFailed)])
      case SessionRequest =>
        if !s.runtime then (s, [Failure(id, NotInitialized)])
        else if !params || !good then (s, [Failure(id, InvalidParams)])
        else if !accepts then (s.(runtime := false, stopped := true), [])
        else (s.(enqueued := s.enqueued + [s.started]), Results(id))
      case Shutdown => (s.(runtime := false, stopped := true), Results(id))
      case Unknown => (s, [Failure(id, UnknownMethod)])
  }

  /** One line: nothing after the loop ended; a failed write ends the loop. */
  function Serve(s: Server, line: Line, luck: Luck): (Server, seq<Answer>) {
    if s.stopped then (s, [])
    else
      var (after, answers) := React(s, line, luck.accepts);
      if answers != [] && !luck.writes then (after.(runtime := false, stopped := true), []) else (after, answers)
  }

  function ServeAll(s: Server, lines: seq<Line>, lucks: seq<Luck>): (Server, seq<Answer>)
    requires |lines| == |lucks|
    decreases |lines|
  {
    if lines == [] then (s, [])
    else
      var (before, earlier) := ServeAll(s, lines[..|lines| - 1], lucks[..|lines| - 1]);
      var (after, answers) := Serve(before, lines[|lines| - 1], lucks[|lines| - 1]);
      (after, earlier + answers)
  }

  /** The `run` loop over the lines of stdin. */
  method RunLoop(lines: seq<Line>, lucks: seq<Luck>) returns (s: Server, written: seq<Answer>)
    requires |lines| == |lucks|
    ensures s == ServeAll(START, lines, lucks).0 && written == ServeAll(START, lines, lucks).1
  {
    var runtime, started, enqueued, stopped := false, 0, [], false;
    written := [];
    var i := 0;
    while i < |lines|
      invariant 0 <= i <= |lines|
      invariant (Server(runtime, started, enqueued, stopped), written) == ServeAll(START, lines[..i], lucks[..i])
      invariant !stopped
    {
      assert lines[..i + 1][..i] == lines[..i] && lucks[..i + 1][..i] == lucks[..i];
      ghost var before := Server(runtime, started, enqueued, stopped);
      var answer := [];
      match lines[i] {
        case Blank =>
        case Garbage => answer := [Failure(None, ParseError)];
        case Call(id, verb, params, good) =>
          match verb {
            case Initialize =>
              if runtime {
                answer := [Failure(id, AlreadyInitialized)];
              } else if !params {
                answer := [Failure(id, InvalidParams)];
              } else if good {
                runtime, started := true, started + 1;
                answer := Results(id);
              } else {
                answer := [Failure(id, InitializeFailed)];
              }
            case SessionRequest =>
              if !runtime {
                answer := [Failure(id, NotInitialized)];
              } else if !params || !good {
                answer := [Failure(id, InvalidParams)];
              } else if !lucks[i].accepts {
                runtime, stopped := false, true;
              } else {
                enqueued := enqueued + [started];
                answer := Results(id);
              }
            case Shutdown =>
              runtime, stopped := false, true;
              answer := Results(id);
            case Unknown => answer := [Failure(id, UnknownMethod)];
          }
      }
      if answer != [] && !lucks[i].writes {
        runtime, stopped, answer := false, true, [];
      }
      written := written + answer;
      assert (Server(runtime, started, enqueued, stopped), answer) == Serve(before, lines[i], lucks[i]);
      i := i + 1;
      if stopped {
        StoppedIsSilent(Server(runtime, started, enqueued, stopped), lines, lucks, i, written);
        return Server(runtime, started, enqueued, stopped), written;
      }
    }
    assert lines[..i] == lines && lucks[..i] == lucks;
    s := Server(runtime, started, enqueued, stopped);
  }

  lemma {:induction false} StoppedIsSilent(s: Server, lines: seq<Line>, lucks: seq<Luck>, i: nat, written: seq<Answer>)
    requires |lines| == |lucks| && i <= |lines| && s.stopped
    requires ServeAll(START, lines[..i], lucks[..i]) == (s, written)
    ensures ServeAll(START, lines, lucks) == (s, written)
    decreases |lines| - i
  {
    if i == |lines| {
      assert lines[..i] == lines && lucks[..i] == lucks;
    } else {
      assert lines[..i + 1][..i] == lines[..i] && lucks[..i + 1][..i] == lucks[..i];
      assert written + [] == written;
      StoppedIsSilent(s, lines, lucks, i + 1, written);
    }
  }

  // ----- What every run keeps -----

  function AnswerId(a: Answer): Option<Id> {
    match a case Result(to) => Some(to) case Failure(about, _) => about
  }

  predicate Sound(s: Server) {
    && s.started <= 1
    && (s.runtime ==> s.started == 1)
    && (s.started == 1 && !s.runtime ==> s.stopped)
    && forall i | 0 <= i < |s.enqueued| :: s.enqueued[i] == 1
  }

  /**
   One line keeps the server sound and is answered at most once, under its own id. A call without an id never gets
   a result; what it can get is an error with a null id.
   */
  lemma {:induction false} ServeSound(s: Server, line: Line, luck: Luck)
    requires Sound(s)
    ensures var (after, answers) := Serve(s, line, luck);
            && Sound(after) && |answers| <= 1
            && (answers != [] ==> AnswerId(answers[0]) == if line.Call? then line.id else None)
            && (line.Call? && line.id.None? && answers != [] ==> answers[0].Failure?)
  {
  }

  /**
   In every run of the loop at most one session is started, no session request is enqueued before that, and there
   are never more answers than lines.
   */
  lemma {:induction false} RunSound(lines: seq<Line>, lucks: seq<Luck>)
    requires |lines| == |lucks|
    ensures Sound(ServeAll(START, lines, lucks).0)
    ensures |ServeAll(START, lines, lucks).1| <= |lines|
    decreases |lines|
  {
    if lines != [] {
      RunSound(lines[..|lines| - 1], lucks[..|lines| - 1]);
      ServeSound(ServeAll(START, lines[..|lines| - 1], lucks[..|lines| - 1]).0, lines[|lines| - 1], lucks[|lines| - 1]);
    }
  }

  /** JSON-RPC 2.0 section 4.1 forbids answering a notification; the loop keeps to it exactly when it has no error. */
  lemma {:induction false} NotificationAnswered(s: Server, verb: Method, params: bool, good: bool, luck: Luck)
    requires !s.stopped && luck.writes
    ensures Serve(s, Call(None, verb, params, good), luck).1 != [] <==>
            match verb
            case Initialize => s.runtime || !params || !good
            case SessionRequest => !s.runtime || !params || !good
            case Shutdown => false
            case Unknown => true
  {
  }
}
