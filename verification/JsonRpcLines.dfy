/** Which requests reach the server as a line of their own, and which lines it answers, over every interleaving. */
module JsonRpcLines {
  import opened Wrappers
  import opened Text
  import opened JsonRpcServer
  import opened JsonRpcPair
  import opened JsonRpcRuns

  /** The state before step `k`. */
  function At(steps: seq<Step>, k: nat): State
    requires k <= |steps|
  {
    Run(BEGIN, steps[..k])
  }

  // ----- When the pipe is torn -----

  /** The step writes bytes of a line: the writer takes a request or a notice, and the write gets beyond its start. */
  predicate Puts(s: State, step: Step) {
    && step.TakeCommand? && s.writer.WriterIdle? && s.queue != [] && !s.queue[0].StopWriting?
    && !step.luck.FailedBefore?
  }

  predicate Tears(s: State, step: Step) {
    Puts(s, step) && step.luck.FailedInside?
  }

  /** The last write that left bytes failed inside its line. */
  predicate LeftTorn(steps: seq<Step>) {
    exists k | 0 <= k < |steps| ::
      && Tears(At(steps, k), steps[k])
      && forall j | k < j < |steps| :: !Puts(At(steps, j), steps[j])
  }

  lemma {:induction false} TornStep(s: State, step: Step)
    ensures Next(s, step).torn <==> if Puts(s, step) then Tears(s, step) else s.torn
  {
    hide Serve, HasSender, AnswerId, CommandLine;
  }

  lemma {:induction false} AtNext(steps: seq<Step>, k: nat)
    requires k < |steps|
    ensures At(steps, k + 1) == Next(At(steps, k), steps[k])
  {
    hide Next;
    assert steps[..k + 1] == steps[..k] + [steps[k]];
    RunConcat(BEGIN, steps[..k], [steps[k]]);
    assert [steps[k]][1..] == [];
  }

  /** The pipe is torn exactly when the last write that left bytes failed inside its line. */
  lemma {:induction false} TornExactly(steps: seq<Step>)
    ensures Run(BEGIN, steps).torn <==> LeftTorn(steps)
    decreases |steps|
  {
    hide Run, Next, Puts, Tears;
    if steps == [] {
      assert Run(BEGIN, []) == BEGIN by {
        RunNothing(BEGIN);
      }
    } else {
      var n := |steps| - 1;
      var before := steps[..n];
      TornExactly(before);
      TornStep(At(steps, n), steps[n]);
      AtNext(steps, n);
      assert steps[..n + 1] == steps;
      LeftTornStep(steps);
    }
  }

  lemma {:induction false} RunNothing(s: State)
    ensures Run(s, []) == s
  {
  }

  lemma {:induction false} LeftTornStep(steps: seq<Step>)
    requires steps != []
    ensures var n := |steps| - 1;
            LeftTorn(steps)
            <==> if Puts(At(steps, n), steps[n]) then Tears(At(steps, n), steps[n]) else LeftTorn(steps[..n])
  {
    hide Run, Puts;
    var n := |steps| - 1;
    var before := steps[..n];
    assert forall k | 0 <= k < n :: before[k] == steps[k] && before[..k] == steps[..k];
    assert forall k | 0 <= k < n :: At(before, k) == At(steps, k);
    if LeftTorn(before) && !Puts(At(steps, n), steps[n]) {
      var k :| 0 <= k < n && Tears(At(before, k), before[k])
               && forall j | k < j < n :: !Puts(At(before, j), before[j]);
      assert Tears(At(steps, k), steps[k]);
    }
    if LeftTorn(steps) && !Puts(At(steps, n), steps[n]) {
      var k :| 0 <= k < |steps| && Tears(At(steps, k), steps[k])
               && forall j | k < j < |steps| :: !Puts(At(steps, j), steps[j]);
      assert Tears(At(before, k), before[k]);
    }
  }

  // ----- When a request becomes a line -----

  /** The writer takes the request of caller `k`. */
  predicate Takes(s: State, step: Step, k: Channel) {
    step.TakeCommand? && s.writer.WriterIdle? && s.queue != [] && s.queue[0].Request? && s.queue[0].reply == k
  }

  /** The whole line gets out. */
  predicate WholeOut(luck: WriteLuck) {
    luck.Written? || luck.FailedAfter?
  }

  /**
   In every run, the request the writer takes enters the pipe as its own line if and only if its line gets out whole
   and the last write that left bytes did not fail inside its line. Otherwise the pipe gets nothing or garbage.
   */
  lemma {:induction false} TakenWholeExactly(steps: seq<Step>, luck: WriteLuck)
    requires var s := Run(BEGIN, steps); s.writer.WriterIdle? && s.queue != [] && s.queue[0].Request?
    ensures var s, t := Run(BEGIN, steps), Run(BEGIN, steps + [TakeCommand(luck)]);
            && (t.toServer == s.toServer + [CommandLine(s.queue[0])] <==> WholeOut(luck) && !LeftTorn(steps))
            && (t.toServer == s.toServer + [CommandLine(s.queue[0])] || t.toServer == s.toServer
                || t.toServer == s.toServer + [Garbage])
  {
    hide LeftTorn;
    var s := Run(BEGIN, steps);
    TornExactly(steps);
    RunConcat(BEGIN, steps, [TakeCommand(luck)]);
    assert [TakeCommand(luck)][1..] == [];
    var own, torn := s.toServer + [CommandLine(s.queue[0])], s.toServer + [Garbage];
    assert own[|s.toServer|].Call? && torn[|s.toServer|].Garbage? && |own| != |s.toServer|;
  }

  /** Step `i` puts the line of caller `k` into the pipe, whole and on its own. */
  predicate TakenWhole(steps: seq<Step>, i: nat, k: Channel)
    requires i < |steps|
  {
    Takes(At(steps, i), steps[i], k) && WholeOut(steps[i].luck) && !LeftTorn(steps[..i])
  }

  lemma {:induction false} NewLine(s: State, step: Step, line: Line)
    requires line in Next(s, step).toServer && line !in s.toServer && line.Call?
    ensures Puts(s, step) && !s.torn && WholeOut(step.luck)
    ensures s.queue != [] && !s.queue[0].StopWriting? && line == CommandLine(s.queue[0])
  {
    hide Serve, HasSender, AnswerId, CommandLine;
  }

  lemma {:induction false} FewerRequests(steps: seq<Step>, k: nat)
    requires k <= |steps|
    ensures Requests(steps[..k]) <= Requests(steps)
  {
    if k > 0 {
      FewerRequests(steps[1..], k - 1);
      assert steps[..k][1..] == steps[1..][..k - 1];
    }
  }

  lemma {:induction false} ReachableAt(steps: seq<Step>, k: nat)
    requires k <= |steps| && Requests(steps) + 2 < U64_LIMIT
    ensures Inv(At(steps, k))
  {
    hide Inv, Run;
    FewerRequests(steps, k);
    Reachable(steps[..k]);
  }

  /** A caller's line that is in the pipe was put there by an earlier step. */
  lemma {:induction false} LineWasTaken(steps: seq<Step>, n: nat, k: Channel)
    requires n <= |steps| && Requests(steps) + 2 < U64_LIMIT
    requires k < |At(steps, n).callers| && LineOf(At(steps, n).callers[k]) in At(steps, n).toServer
    ensures exists i | 0 <= i < n :: TakenWhole(steps, i, k)
  {
    hide Next, Run, Inv, Puts, LeftTorn, TravelOk, AnswersOk, MailOk, Sound, PendingOk, ThreadsOk, Grows;
    ReachableAt(steps, n);
    assert steps[..0] == [];
    if n == 0 {
      RunNothing(BEGIN);
    } else {
      var s, t, step := At(steps, n - 1), At(steps, n), steps[n - 1];
      var line := LineOf(t.callers[k]);
      AtNext(steps, n - 1);
      ReachableAt(steps, n - 1);
      StepGrows(s, step);
      if line in s.toServer {
        KnownLine(s, t, k);
        LineWasTaken(steps, n - 1, k);
        var i :| 0 <= i < n - 1 && TakenWhole(steps, i, k);
      } else {
        NewLine(s, step, line);
        HeadIsOf(s, t, k);
        PutsTakes(s, step, k);
        TornExactly(steps[..n - 1]);
        assert TakenWhole(steps, n - 1, k);
      }
    }
  }

  lemma {:induction false} PutsTakes(s: State, step: Step, k: Channel)
    requires Puts(s, step) && s.queue[0].Request? && s.queue[0].reply == k
    ensures Takes(s, step, k)
  {
  }

  lemma {:induction false} KnownLine(s: State, t: State, k: Channel)
    requires Inv(s) && Inv(t) && Grows(s, t) && k < |t.callers| && LineOf(t.callers[k]) in s.toServer
    ensures k < |s.callers| && LineOf(s.callers[k]) == LineOf(t.callers[k])
  {
    hide TravelOk, AnswersOk, MailOk, Sound, PendingOk, ThreadsOk;
    assert CallerOk(t, k);
    var i :| 0 <= i < |s.toServer| && s.toServer[i] == LineOf(t.callers[k]);
    assert Known(s, s.toServer[i].id.value);
  }

  lemma {:induction false} HeadIsOf(s: State, t: State, k: Channel)
    requires Inv(s) && Inv(t) && k < |t.callers| && s.queue != [] && !s.queue[0].StopWriting?
    requires CommandLine(s.queue[0]) == LineOf(t.callers[k])
    ensures s.queue[0].Request? && s.queue[0].reply == k
  {
    hide TravelOk, AnswersOk, MailOk, Sound, PendingOk, ThreadsOk;
    assert CallerOk(t, k);
    assert s.queue[0].Request? ==> s.queue[0].reply == s.queue[0].id - 1;
  }

  // ----- When a line is answered -----

  /** The session refuses a session request, which ends the server without an answer. */
  predicate Refused(server: Server, c: Caller, luck: Luck) {
    c.verb.SessionRequest? && server.runtime && c.good && !luck.accepts
  }

  /** The server, not stopped, takes the line of caller `k`, can write, and is not refused by its session. */
  predicate AnswersLine(s: State, step: Step, k: Channel) {
    && step.ServerTurn? && k < |s.callers| && s.toServer != [] && s.toServer[0] == LineOf(s.callers[k])
    && !s.server.stopped && step.serverLuck.writes && !Refused(s.server, s.callers[k], step.serverLuck)
  }

  predicate IsAnswered(s: State, k: Channel) {
    k < |s.callers| && s.callers[k].id in AnsweredIds(s.written)
  }

  /** What the server writes to a request: one answer under its id, unless it is stopped, cannot write or is refused. */
  lemma {:induction false} ServeRequest(server: Server, c: Caller, luck: Luck)
    requires Sound(server)
    ensures var answers := Serve(server, LineOf(c), luck).1;
            && |answers| <= 1 && (answers != [] <==> !server.stopped && luck.writes && !Refused(server, c, luck))
            && (answers != [] ==> AnswerId(answers[0]) == Some(c.id))
  {
    ServeSound(server, LineOf(c), luck);
  }

  /** A step answers a caller exactly when it serves the caller's line well. */
  lemma {:induction false} AnsweredStep(s: State, step: Step, k: Channel)
    requires Inv(s) && k < |s.callers|
    ensures IsAnswered(Next(s, step), k) <==> IsAnswered(s, k) || AnswersLine(s, step, k)
  {
    hide Grows, Serve, TravelOk, AnswersOk, MailOk, PendingOk, ThreadsOk, AnsweredIds, Refused, Sound;
    StepGrows(s, step);
    var t, id := Next(s, step), s.callers[k].id;
    assert CallerOk(s, k);
    SameCaller(s, t, k);
    if step.ServerTurn? && s.toServer != [] {
      var line, luck := s.toServer[0], step.serverLuck;
      var answers := Serve(s.server, line, luck).1;
      ServeSound(s.server, line, luck);
      if line == LineOf(s.callers[k]) {
        ServeRequest(s.server, s.callers[k], luck);
      } else {
        OtherLine(s, k);
      }
      if answers != [] {
        AnsweredIdsConcat(s.written, [Exchange(line, answers[0])]);
        OneId(StopWriting, Blank, Exchange(line, answers[0]));
      }
    } else {
      WrittenKept(s, step);
    }
  }

  lemma {:induction false} SameCaller(s: State, t: State, k: Channel)
    requires Grows(s, t) && k < |s.callers|
    ensures k < |t.callers| && t.callers[k].id == s.callers[k].id && LineOf(t.callers[k]) == LineOf(s.callers[k])
  {
  }

  lemma {:induction false} OtherLine(s: State, k: Channel)
    requires RequestsOk(s) && CallersOk(s) && k < |s.callers| && s.toServer != [] && s.toServer[0] != LineOf(s.callers[k])
    ensures s.toServer[0].Call? ==> s.toServer[0].id != Some(s.callers[k].id)
  {
    assert CallerOk(s, k);
  }

  lemma {:induction false} WrittenKept(s: State, step: Step)
    requires !(step.ServerTurn? && s.toServer != [])
    ensures Next(s, step).written == s.written
  {
    hide Serve, HasSender;
  }

  /** Answers of callers are those of serving steps. */
  lemma {:induction false} AnsweredByStep(steps: seq<Step>, n: nat, k: Channel)
    requires n <= |steps| && Requests(steps) + 2 < U64_LIMIT
    ensures IsAnswered(At(steps, n), k) <==> exists j | 0 <= j < n :: AnswersLine(At(steps, j), steps[j], k)
  {
    hide Next, Run, Inv, AnswersLine, AnsweredIds;
    ReachableAt(steps, n);
    if n == 0 {
      RunNothing(BEGIN);
      assert steps[..0] == [];
    } else {
      var s, step := At(steps, n - 1), steps[n - 1];
      AtNext(steps, n - 1);
      ReachableAt(steps, n - 1);
      AnsweredByStep(steps, n - 1, k);
      if k < |s.callers| {
        AnsweredStep(s, step, k);
      } else {
        NotYetAnswered(s, step, k);
      }
    }
  }

  /** Nobody is answered before drawing an id. */
  lemma {:induction false} NotYetAnswered(s: State, step: Step, k: Channel)
    requires Inv(s) && k >= |s.callers|
    ensures !IsAnswered(Next(s, step), k) && !AnswersLine(s, step, k)
  {
    hide Serve, AnswersOk, MailOk, PendingOk, ThreadsOk, RequestsOk, Sound, AnsweredIds, TravelOk;
    var t := Next(s, step);
    forall id | id in AnsweredIds(s.written)
      ensures Known(s, id)
    {
      AnsweredKnown(s, id);
    }
    assert k < |t.callers| ==> step.Allocate? && t.written == s.written && t.callers[k].id == s.nextId;
  }

  lemma {:induction false} AnsweredKnown(s: State, id: Id)
    requires TravelOk(s) && id in AnsweredIds(s.written)
    ensures Known(s, id)
  {
    hide NoRepeats, LineIds, CommandIds, AnsweredIds;
    var i :| 0 <= i < |AnsweredIds(s.written)| && AnsweredIds(s.written)[i] == id;
    assert Travel(s)[i] == id;
    assert WasSent(s, id);
  }

  /**
   In every run a call is answered if and only if the writer put its line into the pipe whole and on its own, and later
   the server, not stopped, took that line, could write, and was not refused by its session.
   */
  lemma {:induction false} AnsweredExactly(steps: seq<Step>, k: Channel)
    requires Requests(steps) + 2 < U64_LIMIT
    ensures IsAnswered(Run(BEGIN, steps), k)
            <==> exists i, j | 0 <= i < j < |steps| ::
                   TakenWhole(steps, i, k) && AnswersLine(At(steps, j), steps[j], k)
  {
    hide Run, TakenWhole, AnsweredIds;
    assert steps[..|steps|] == steps;
    AnsweredByStep(steps, |steps|, k);
    if IsAnswered(Run(BEGIN, steps), k) {
      var j :| 0 <= j < |steps| && AnswersLine(At(steps, j), steps[j], k);
      LineWasTaken(steps, j, k);
      var i :| 0 <= i < j && TakenWhole(steps, i, k);
    }
  }

  // ----- What is swallowed stays swallowed -----

  lemma {:induction false} DroppedStays(s: State, steps: seq<Step>, id: Id)
    requires Inv(s) && s.nextId + Requests(steps) + 1 < U64_LIMIT && WasSent(s, id) && id !in Travel(s)
    ensures id !in Travel(Run(s, steps))
    decreases |steps|
  {
    hide Inv, Next, Travel, Grows;
    if steps != [] {
      NextKeeps(s, steps[0]);
      NextIdStep(s, steps[0]);
      StepGrows(s, steps[0]);
      SameCaller(s, Next(s, steps[0]), id - 1);
      StaysSent(s, Next(s, steps[0]), id);
      DroppedStep(s, steps[0], id);
      DroppedStays(Next(s, steps[0]), steps[1..], id);
    }
  }

  lemma {:induction false} StaysSent(s: State, t: State, id: Id)
    requires Grows(s, t) && WasSent(s, id)
    ensures WasSent(t, id)
  {
  }

  /** No step brings back an id that has left the way to the server unanswered. */
  lemma {:induction false} DroppedStep(s: State, step: Step, id: Id)
    requires Inv(s) && WasSent(s, id) && id !in Travel(s)
    ensures id !in Travel(Next(s, step))
  {
    hide Travel, Serve, AnswersOk, MailOk, PendingOk, ThreadsOk, RequestsOk, Sound, Inv;
    InvParts(s);
    match step {
      case Enqueue(k) =>
        if In(s, k, Registered) && !s.writer.WriterGone? {
          var c := s.callers[k];
          assert CallerOk(s, k);
          TravelWithCommand(s, Next(s, step), Request(c.id, c.verb, c.good, k));
        } else {
          SameTravel(s, Next(s, step));
        }
      case Notify(verb, good) =>
        if !s.writer.WriterGone? {
          TravelWithCommand(s, Next(s, step), Notice(verb, good));
        }
      case AskStop =>
        if !s.writer.WriterGone? {
          TravelWithCommand(s, Next(s, step), StopWriting);
        }
      case TakeCommand(luck) =>
        if s.writer.WriterIdle? && s.queue != [] {
          TakeTravel(s, luck);
        }
      case ServerTurn(luck) =>
        if s.toServer != [] {
          ServerTravel(s, luck);
        }
      case _ => SameTravel(s, Next(s, step));
    }
  }

  /** Taking a request and not getting its own line out drops its id. */
  lemma {:induction false} TakeDrops(s: State, luck: WriteLuck)
    requires Inv(s) && s.writer.WriterIdle? && s.queue != [] && s.queue[0].Request? && !(WholeOut(luck) && !s.torn)
    ensures s.queue[0].id !in Travel(Next(s, TakeCommand(luck)))
  {
    hide CommandIds, LineIds, AnsweredIds, AnswersOk, MailOk, PendingOk, ThreadsOk, RequestsOk, Sound, Mapped;
    var t, id := Next(s, TakeCommand(luck)), s.queue[0].id;
    var a, b, c := AnsweredIds(s.written), LineIds(s.toServer), CommandIds(s.queue[1..]);
    FirstCommand(s.queue);
    LineIdsConcat(s.toServer, [Garbage]);
    OneId(s.queue[0], Garbage, Exchange(Blank, Failure(None, ParseError)));
    assert b + [] == b;
    assert Travel(s) == (a + b) + [id] + c && Travel(t) == (a + b) + c;
    NotAround(a + b, id, c);
  }

  lemma {:induction false} NotAround(a: seq<Id>, id: Id, b: seq<Id>)
    requires NoRepeats(a + [id] + b)
    ensures id !in a + b
  {
    var all := a + [id] + b;
    forall i | 0 <= i < |a + b|
      ensures (a + b)[i] != id
    {
      assert all[|a|] == id && (a + b)[i] == all[if i < |a| then i else i + 1];
    }
  }

  /**
   A request whose line does not get out whole, or is written behind a piece of a line, is never answered, whatever
   happens later.
   */
  lemma {:induction false} SwallowedForever(steps: seq<Step>, i: nat, k: Channel)
    requires Requests(steps) + 2 < U64_LIMIT && i < |steps|
    requires Takes(At(steps, i), steps[i], k) && !TakenWhole(steps, i, k)
    ensures !IsAnswered(Run(BEGIN, steps), k)
  {
    hide Run, Next, Inv, Travel, Grows, LeftTorn, AnsweredIds;
    var s, rest := At(steps, i), steps[i + 1..];
    var t, last := At(steps, i + 1), Run(BEGIN, steps);
    ReachableAt(steps, i);
    ReachableAt(steps, i + 1);
    AtNext(steps, i);
    TornExactly(steps[..i]);
    HeadId(s, k);
    TakeDrops(s, steps[i].luck);
    assert steps == steps[..i + 1] + rest;
    RunConcat(BEGIN, steps[..i + 1], rest);
    RequestsLeft(steps, i + 1);
    NextIdAt(BEGIN, steps[..i + 1]);
    StepGrows(s, steps[i]);
    StaysSent(s, t, k + 1);
    DroppedStays(t, rest, k + 1);
    RunGrows(t, rest);
    SameCaller(s, t, k);
    SameCaller(t, last, k);
    AnsweredTravel(last, k + 1);
  }

  lemma {:induction false} AnsweredTravel(s: State, id: Id)
    requires id !in Travel(s)
    ensures id !in AnsweredIds(s.written)
  {
  }

  lemma {:induction false} HeadId(s: State, k: Channel)
    requires Inv(s) && s.queue != [] && s.queue[0].Request? && s.queue[0].reply == k
    ensures s.queue[0].id == k + 1 && k < |s.callers| && s.callers[k].id == k + 1 && WasSent(s, k + 1)
  {
    hide AnswersOk, MailOk, Sound, PendingOk, ThreadsOk, Travel, NoRepeats;
    FirstCommandSent(s);
    assert CallerOk(s, k);
  }

  lemma {:induction false} RequestsLeft(steps: seq<Step>, k: nat)
    requires k <= |steps|
    ensures Requests(steps[..k]) + Requests(steps[k..]) == Requests(steps)
  {
    if k > 0 {
      RequestsLeft(steps[1..], k - 1);
      assert steps[..k][1..] == steps[1..][..k - 1] && steps[1..][k - 1..] == steps[k..];
    } else {
      assert steps[..0] == [] && steps[0..] == steps;
    }
  }

  lemma {:induction false} NextIdAt(s: State, steps: seq<Step>)
    requires s.nextId + Requests(steps) + 1 < U64_LIMIT
    ensures Run(s, steps).nextId == s.nextId + Requests(steps)
    decreases |steps|
  {
    hide Next;
    if steps != [] {
      NextIdStep(s, steps[0]);
      NextIdAt(Next(s, steps[0]), steps[1..]);
    }
  }
}
