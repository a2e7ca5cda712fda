/**
 * The session lifecycle as a sequence of events: the service calls, the
 * timer callbacks, the end of the post-results pause and socket
 * disconnects, applied one at a time as the event loop runs them.
 */
module Lifecycle {

  import opened Wrappers
  import opened Seqs
  import opened Constants
  import opened PreguntaModel
  import opened PartidaModel
  import opened ParticipacionModel
  import opened Scoring
  import opened Store
  import PartidaService
  import ParticipacionService
  import SocketManager
  import PartidaProperties

  datatype Event =
    | JoinEv(pin: string, studentId: string, name: string)
    | StartEv(sessionId: string)
    | AnswerEv(sub: PartidaService.Submission)
    | LedgerEv(sub: PartidaService.Submission, delivered: bool)
    | TimerEv(sessionId: string)
    | PauseEv(index: nat)
    | FinalizeEv(sessionId: string)
    | DisconnectEv(sock: SocketManager.SocketData)

  /** The state after one event; replies go to the caller and are not kept. */
  function Step(st: State, e: Event): State {
    match e
    case JoinEv(pin, studentId, name) => PartidaService.Join(st, pin, studentId, name).st
    case StartEv(id) => PartidaService.Start(st, id).st
    case AnswerEv(sub) => PartidaService.Answer(st, sub).st
    case LedgerEv(sub, delivered) => ParticipacionService.Submit(st, sub, delivered).st
    case TimerEv(id) => PartidaService.TimerFired(st, id)
    case PauseEv(j) => PartidaService.PauseElapsed(st, j)
    case FinalizeEv(id) => PartidaService.Finalize(st, id).st
    case DisconnectEv(sock) => SocketManager.Disconnect(st, sock)
  }

  function Run(st: State, es: seq<Event>): State
    decreases |es|
  {
    if |es| == 0 then st else Run(Step(st, es[0]), es[1..])
  }

  /** A start of a session that has already left the lobby. */
  predicate Restarts(st: State, e: Event) {
    e.StartEv? &&
    match FindSession(st.sessions, e.sessionId)
    case Some(si) => st.sessions[si].phase != Espera
    case None => false
  }

  /** No event of the trace starts a session outside the lobby. */
  predicate StartsOnlyWaiting(st: State, es: seq<Event>)
    decreases |es|
  {
    |es| == 0 || (!Restarts(st, es[0]) && StartsOnlyWaiting(Step(st, es[0]), es[1..]))
  }

  /** An advance either leaves the sessions alone or closes one. */
  lemma AdvanceForward(st: State, id: string, i: nat)
    ensures PhasesForward(st.sessions, PartidaService.Advance(st, id, i).sessions)
  {
    var st1 := st.(timers := st.timers - {id});
    match FindSession(st1.sessions, id) {
      case None =>
      case Some(si) =>
        if i >= |QuizQuestions(st1.questions, st1.sessions[si].quizId)| {
          CloseForward(st1, si);
        }
    }
  }

  /** Closing moves one session to finished and leaves the others alone. */
  lemma CloseForward(st: State, si: nat)
    requires si < |st.sessions|
    ensures PhasesForward(st.sessions, PartidaService.Close(st, si).sessions)
  {
  }

  lemma JoinForward(st: State, pin: string, studentId: string, name: string)
    ensures PhasesForward(st.sessions, PartidaService.Join(st, pin, studentId, name).st.sessions)
  {
  }

  lemma StartForward(st: State, id: string)
    requires !Restarts(st, StartEv(id))
    ensures PhasesForward(st.sessions, PartidaService.Start(st, id).st.sessions)
  {
    match FindSession(st.sessions, id) {
      case None =>
      case Some(si) =>
        var st1 := st.(sessions := st.sessions[si := st.sessions[si].(phase := Activa)]);
        assert PhasesForward(st.sessions, st1.sessions);
        AdvanceForward(st1, id, 0);
        PhasesForwardTrans(st.sessions, st1.sessions, PartidaService.Advance(st1, id, 0).sessions);
    }
  }

  lemma AnswerForward(st: State, sub: PartidaService.Submission)
    ensures PhasesForward(st.sessions, PartidaService.Answer(st, sub).st.sessions)
  {
    var o := PartidaService.Answer(st, sub);
    if o.reply.Success? && o.reply.value.Graded? {
      var si := FindSession(st.sessions, sub.sessionId).value;
      var s := st.sessions[si];
      var players := o.st.sessions[si].players;
      AnswerTouchesRoster(st, sub, si);
      assert o.st.sessions == st.sessions[si := s.(players := players)];
    }
  }

  /** A graded answer changes the session only in its roster. */
  lemma AnswerTouchesRoster(st: State, sub: PartidaService.Submission, si: nat)
    requires FindSession(st.sessions, sub.sessionId) == Some(si)
    requires PartidaService.Answer(st, sub).reply.Success? && PartidaService.Answer(st, sub).reply.value.Graded?
    ensures PartidaService.Answer(st, sub).st.sessions
              == st.sessions[si := st.sessions[si].(players := PartidaService.Answer(st, sub).st.sessions[si].players)]
  {
    var pi := FindParticipation(st.participations, sub.sessionId, sub.studentId).value;
    var s := st.sessions[si];
    var q := FindQuestion(st.questions, sub.questionId).value;
    var ok := RoutedCorrect(sub.selected.value, q.options);
    var points := PartidaService.RoutedPoints(s, q, sub.selected.value, sub.seconds);
    var p' := PartidaService.Record(st.participations[pi], sub, ok, points);
    var players := PartidaService.MirrorScore(s.players, sub.studentId, p'.score);
    assert PartidaService.Answer(st, sub).st.sessions == st.sessions[si := s.(players := players)];
  }

  lemma PauseForward(st: State, j: nat)
    ensures PhasesForward(st.sessions, PartidaService.PauseElapsed(st, j).sessions)
  {
    if j < |st.pauses| {
      var p := st.pauses[j];
      AdvanceForward(st.(pauses := st.pauses[..j] + st.pauses[j + 1..]), p.sessionId, p.next);
    }
  }

  lemma FinalizeForward(st: State, id: string)
    ensures PhasesForward(st.sessions, PartidaService.Finalize(st, id).st.sessions)
  {
    match FindSession(st.sessions, id) {
      case None =>
      case Some(si) => CloseForward(st, si);
    }
  }

  /**
   * Every event other than a restart keeps the set of sessions and moves
   * each of them forward or not at all in the order espera, activa or
   * pausada, finalizada.
   */
  lemma StepForward(st: State, e: Event)
    requires !Restarts(st, e)
    ensures PhasesForward(st.sessions, Step(st, e).sessions)
  {
    match e
    case JoinEv(pin, studentId, name) => JoinForward(st, pin, studentId, name);
    case StartEv(id) => StartForward(st, id);
    case AnswerEv(sub) => AnswerForward(st, sub);
    case LedgerEv(sub, delivered) =>
    case TimerEv(id) =>
    case PauseEv(j) => PauseForward(st, j);
    case FinalizeEv(id) => FinalizeForward(st, id);
    case DisconnectEv(sock) =>
  }

  /**
   * Phase monotonicity holds for whole traces, but only under the
   * precondition that no session is started twice: the start operation
   * itself does not guard it.
   */
  lemma {:induction false} RunForward(st: State, es: seq<Event>)
    requires StartsOnlyWaiting(st, es)
    ensures PhasesForward(st.sessions, Run(st, es).sessions)
    decreases |es|
  {
    if |es| > 0 {
      StepForward(st, es[0]);
      RunForward(Step(st, es[0]), es[1..]);
      PhasesForwardTrans(st.sessions, Step(st, es[0]).sessions, Run(st, es).sessions);
    }
  }

  /**
   * A finished session never reopens under such a trace: it stays
   * `finalizada` after any number of joins, answers, timer callbacks,
   * pauses, finalizes and disconnects.
   */
  lemma FinishedStaysFinished(st: State, es: seq<Event>, si: nat)
    requires StartsOnlyWaiting(st, es)
    requires si < |st.sessions| && st.sessions[si].phase == Finalizada
    ensures si < |Run(st, es).sessions| && Run(st, es).sessions[si].phase == Finalizada
  {
    RunForward(st, es);
  }

  const QuizA: Question := Question("x", "q1", "2 + 2", Unica,
    [Choice("4", true, None), Choice("5", false, None)], 1000, 1, Visible)

  const Two: Session := Session("s1", "q1", "t1", "777", EnVivo, Activa, Publica,
    DefaultLiveConfig(), ZeroStats(),
    [NewPlayer("a", "Ana"), NewPlayer("b", "Beto")])

  /** Question 0 of a one-question quiz is running for two players. */
  const Running: State := State([Two], [NewParticipation("s1", "a", EnVivo), NewParticipation("s1", "b", EnVivo)],
    [QuizA], map["s1" := 0], [], [])

  /** The same state after Beto's socket disconnects: Beto is marked abandoned, one player is reported. */
  const Left: State := Running.(
    sessions := [Two.(players := [NewPlayer("a", "Ana"), NewPlayer("b", "Beto").(status := Abandoned)])],
    log := [Emit("777", PlayerLeft(Game, "b", 1))])

  lemma LeaveScenario()
    ensures SocketManager.Disconnect(Running, SocketManager.SocketData(true, "s1", "b", "777")) == Left
  {
    assert FindSession(Running.sessions, "s1") == Some(0);
    assert FindPlayer(Two.players, "b") == Some(1);
    var after := Left.sessions[0].players;
    assert SocketManager.MarkAbandoned(Two.players, "b") == after;
    assert after[1..][1..] == [];
    assert SocketManager.ActiveCount(after[1..]) == 0;
    assert SocketManager.ActiveCount(after) == 1;
  }

  lemma AnswerScenario()
    ensures var o := PartidaService.Answer(Left, PartidaService.Submission("s1", "a", "x", Some([0]), 5));
            && o.reply == Success(PartidaService.Graded(true, 875))
            && o.st.timers == Left.timers && o.st.pauses == []
            && PartidaService.AnsweredCount(o.st.participations, "s1", "x") == 1
  {
    var sub := PartidaService.Submission("s1", "a", "x", Some([0]), 5);
    assert FindSession(Left.sessions, "s1") == Some(0);
    assert FindParticipation(Left.participations, "s1", "a") == Some(0);
    assert !Answered(Left.participations[0], "x");
    assert FindQuestion(Left.questions, "x") == Some(QuizA);
    ScenarioGrade();
    var p0 := PartidaService.Record(Left.participations[0], sub, true, 875);
    var ps := Left.participations[0 := p0];
    ScenarioCount(p0, Left.participations[1]);
    assert ps == [p0, Left.participations[1]];
    var o := PartidaService.Answer(Left, sub);
    assert o.st.participations == ps;
  }

  /** Ana's answer is correct and earns 875 points at 5 seconds of 20. */
  lemma ScenarioGrade()
    ensures RoutedCorrect([0], QuizA.options)
    ensures PartidaService.RoutedPoints(Left.sessions[0], QuizA, [0], 5) == 875
  {
    assert QuizA.options[..1][..0] == [];
    assert CorrectIndices(QuizA.options[..1]) == [0];
    assert CorrectIndices(QuizA.options) == [0];
    assert RoutedSpeedPoints(1000, 5, 20) == 875;
  }

  /** After Ana's answer one of the two participations holds an answer to the question. */
  lemma ScenarioCount(p0: Participation, p1: Participation)
    requires p0.sessionId == "s1" && p0.answers == [AnswerRecord("x", [0], true, 5, 875)]
    requires p1.answers == []
    ensures PartidaService.AnsweredCount([p0, p1], "s1", "x") == 1
  {
    assert [p0, p1][1..][1..] == [];
    assert !Answered(p1, "x");
    assert p0.answers[0].questionId == "x";
    assert PartidaService.AnsweredCount([p1], "s1", "x") == 0;
  }

  /**
   * An abandoned player still counts towards early conclusion: after Beto
   * leaves, Ana is the only active player and answers, yet the question is
   * not concluded early and the token stays armed until the timer fires.
   */
  lemma AbandonedPlayerBlocksEarlyConclude()
    ensures var st1 := SocketManager.Disconnect(Running, SocketManager.SocketData(true, "s1", "b", "777"));
            var st2 := PartidaService.Answer(st1, PartidaService.Submission("s1", "a", "x", Some([0]), 5));
            && SocketManager.ActiveCount(st1.sessions[0].players) == 1
            && |st1.sessions[0].players| == 2
            && st2.reply == Success(PartidaService.Graded(true, 875))
            && PartidaService.AnsweredCount(st2.st.participations, "s1", "x") == 1
            && "s1" in st2.st.timers
            && st2.st.pauses == []
  {
    LeaveScenario();
    AnswerScenario();
    var after := Left.sessions[0].players;
    assert after[1..][1..] == [];
    assert SocketManager.ActiveCount(after[1..]) == 0;
    assert "s1" in Left.timers;
  }
  /**
   * Both players answer and the question ends early: after Ana's answer one
   * of two participations holds it and the token stays; Beto's answer makes
   * it two of two, so the token is cleared, the results go out and the
   * pause that advances to question 1 is queued.
   */
  lemma BothAnswerConcludesEarly()
    ensures var subA := PartidaService.Submission("s1", "a", "x", Some([0]), 5);
            var subB := PartidaService.Submission("s1", "b", "x", Some([1]), 8);
            var o1 := PartidaService.Answer(Running, subA);
            var o2 := PartidaService.Answer(o1.st, subB);
            && o1.reply == Success(PartidaService.Graded(true, 875))
            && o1.st.timers == Running.timers && o1.st.pauses == []
            && o2.reply == Success(PartidaService.Graded(false, 0))
            && "s1" !in o2.st.timers
            && o2.st.pauses == [PendingAdvance("s1", 1)]
            && |o2.st.log| == 1 && o2.st.log[0].event.QuestionResults?
  {
    var subA := PartidaService.Submission("s1", "a", "x", Some([0]), 5);
    var subB := PartidaService.Submission("s1", "b", "x", Some([1]), 8);
    var st1 := PartidaService.GradedWrite(Running, 0, 0, QuizA, subA);
    AnaAnswersFirst(subA, st1);
    BetoAnswersLast(st1, subB);
  }

  /** Ana's answer is graded and, one of two being in, leaves the token alone. */
  lemma AnaAnswersFirst(subA: PartidaService.Submission, st1: State)
    requires subA == PartidaService.Submission("s1", "a", "x", Some([0]), 5)
    requires st1 == PartidaService.GradedWrite(Running, 0, 0, QuizA, subA)
    ensures PartidaService.Answer(Running, subA) == PartidaService.Out(st1, Success(PartidaService.Graded(true, 875)))
  {
    assert FindSession(Running.sessions, "s1") == Some(0);
    assert FindParticipation(Running.participations, "s1", "a") == Some(0);
    assert FindQuestion(Running.questions, "x") == Some(QuizA);
    ScenarioGrade();
    PartidaProperties.AnswerGradesFresh(Running, subA, 0, 0, QuizA);
    AnaWrite(subA, st1);
  }

  /** After Ana's writes one of the two participations holds the question. */
  lemma AnaWrite(subA: PartidaService.Submission, st1: State)
    requires subA == PartidaService.Submission("s1", "a", "x", Some([0]), 5)
    requires st1 == PartidaService.GradedWrite(Running, 0, 0, QuizA, subA)
    ensures PartidaService.AnsweredCount(st1.participations, "s1", "x") == 1
  {
    ScenarioGrade();
    var p0 := PartidaService.Record(Running.participations[0], subA, true, 875);
    assert st1.participations == [p0, Running.participations[1]];
    ScenarioCount(p0, Running.participations[1]);
  }

  /** Beto's answer is graded wrong and, two of two being in, concludes question 0. */
  lemma BetoAnswersLast(st1: State, subB: PartidaService.Submission)
    requires subB == PartidaService.Submission("s1", "b", "x", Some([1]), 8)
    requires st1 == PartidaService.GradedWrite(Running, 0, 0, QuizA, PartidaService.Submission("s1", "a", "x", Some([0]), 5))
    ensures var o2 := PartidaService.Answer(st1, subB);
            && o2.reply == Success(PartidaService.Graded(false, 0))
            && "s1" !in o2.st.timers
            && o2.st.pauses == [PendingAdvance("s1", 1)]
            && |o2.st.log| == 1 && o2.st.log[0].event.QuestionResults?
  {
    AnaState(st1);
    ScenarioWrong();
    PartidaProperties.AnswerGradesFresh(st1, subB, 0, 1, QuizA);
    BetoWrite(st1, subB);
    ScenarioPosition(st1);
    PartidaProperties.EarlyConcludeFires(st1, subB, 0, 1, 0);
  }

  /** After Ana's writes, Beto still has his participation and no answer, and the session is unchanged but for its roster. */
  lemma AnaState(st1: State)
    requires st1 == PartidaService.GradedWrite(Running, 0, 0, QuizA, PartidaService.Submission("s1", "a", "x", Some([0]), 5))
    ensures FindSession(st1.sessions, "s1") == Some(0) && st1.sessions[0].phase == Activa
    ensures |st1.sessions| == 1 && st1.sessions[0].quizId == "q1" && |st1.sessions[0].players| == 2
    ensures st1.sessions[0].live == Two.live
    ensures FindParticipation(st1.participations, "s1", "b") == Some(1)
    ensures !Answered(st1.participations[1], "x")
    ensures st1.questions == [QuizA] && st1.timers == Running.timers && st1.pauses == [] && st1.log == []
  {
    assert st1.participations[1] == Running.participations[1];
    assert st1.sessions[0] == Two.(players := st1.sessions[0].players);
  }

  /** After Beto's writes both participations hold the question. */
  lemma BetoWrite(st1: State, subB: PartidaService.Submission)
    requires subB == PartidaService.Submission("s1", "b", "x", Some([1]), 8)
    requires st1 == PartidaService.GradedWrite(Running, 0, 0, QuizA, PartidaService.Submission("s1", "a", "x", Some([0]), 5))
    ensures PartidaService.AnsweredCount(PartidaService.GradedWrite(st1, 0, 1, QuizA, subB).participations, "s1", "x") == 2
  {
    var st2 := PartidaService.GradedWrite(st1, 0, 1, QuizA, subB);
    assert |st2.participations| == 2;
    assert st2.participations[0] == st1.participations[0];
    assert st2.participations == [st2.participations[0], st2.participations[1]];
    ScenarioCountBoth(st2.participations[0], st2.participations[1]);
  }

  /** Beto's choice is wrong and earns nothing. */
  lemma ScenarioWrong()
    ensures !RoutedCorrect([1], QuizA.options)
    ensures PartidaService.RoutedPoints(Two, QuizA, [1], 8) == 0
  {
    assert QuizA.options[..1][..0] == [];
    assert CorrectIndices(QuizA.options[..1]) == [0];
    assert CorrectIndices(QuizA.options) == [0];
    assert [1][0] !in CorrectIndices(QuizA.options);
  }

  /** Once both participations hold an answer to the question, the count is two. */
  lemma ScenarioCountBoth(p0: Participation, p1: Participation)
    requires p0.sessionId == "s1" && |p0.answers| > 0 && p0.answers[0].questionId == "x"
    requires p1.sessionId == "s1" && |p1.answers| > 0 && p1.answers[0].questionId == "x"
    ensures PartidaService.AnsweredCount([p0, p1], "s1", "x") == 2
  {
    assert [p0, p1][1..][1..] == [];
    assert Answered(p0, "x") && Answered(p1, "x");
    assert PartidaService.AnsweredCount([p1], "s1", "x") == 1;
  }

  /** In a state holding only QuizA, the question "x" is question 0 of quiz "q1". */
  lemma ScenarioPosition(st: State)
    requires st.questions == [QuizA] && |st.sessions| == 1 && st.sessions[0].quizId == "q1"
    ensures PartidaService.PositionOf(PartidaProperties.QuizOf(st, 0), "x") == Some(0)
  {
    var qs := PartidaProperties.QuizOf(st, 0);
    assert QuizA in qs;
    assert qs[0] == QuizA;
  }
}
