/**
 * Properties of the orchestrator in PartidaService: the at-most-once
 * guard, what an advance arms, what a close leaves behind, joins, graded
 * answers, and the places where the code does less than its design.
 */
module PartidaProperties {

  import opened Wrappers
  import opened Seqs
  import opened Constants
  import opened PreguntaModel
  import opened PartidaModel
  import opened ParticipacionModel
  import opened Scoring
  import opened Ranking
  import opened Store
  import opened PartidaService

  /** The quiz of the session stored at `si`, in question order. */
  function QuizOf(st: State, si: nat): seq<Question>
    requires si < |st.sessions|
  {
    QuizQuestions(st.questions, st.sessions[si].quizId)
  }

  /**
   * The timer and the all-answered trigger race: whichever concludes
   * second finds no token and changes nothing, so the pair produces at
   * most one results broadcast and at most one scheduled advance.
   */
  lemma ConcludeAtMostOnce(st: State, id: string, k1: nat, k2: nat)
    ensures Conclude(Conclude(st, id, k1), id, k2) == Conclude(st, id, k1)
    ensures ResultsCount(Conclude(Conclude(st, id, k1), id, k2).log) <= ResultsCount(st.log) + 1
    ensures |Conclude(Conclude(st, id, k1), id, k2).pauses| <= |st.pauses| + 1
  {
    var st' := Conclude(st, id, k1);
    var n := |st.log|;
    if |st'.log| > n {
      assert st'.log == st.log + [st'.log[n]];
      CountSnoc(st.log, st'.log[n], (e: Emit) => e.event.QuestionResults?);
    } else {
      assert st'.log == st.log;
    }
  }

  /**
   * When the token is armed and the session and question `k` exist, the
   * results carry, for every bucket, the number of the session's
   * participations whose first mark on question k is that bucket, and the
   * first correct option; the scheduled advance targets k + 1.
   */
  lemma ConcludeResults(st: State, id: string, k: nat, si: nat, b: int)
    requires id in st.timers
    requires FindSession(st.sessions, id) == Some(si)
    requires k < |QuizOf(st, si)| && 0 <= b < Buckets
    ensures var st' := Conclude(st, id, k);
            var q := QuizOf(st, si)[k];
            && st'.pauses == st.pauses + [PendingAdvance(id, k + 1)]
            && |st'.log| == |st.log| + 1
            && st'.log[|st.log|].room == st.sessions[si].pin
            && st'.log[|st.log|].event.stats[b] == VotesFor(OfSession(st.participations, id), q.id, b)
            && st'.log[|st.log|].event.correct == FirstCorrectIndex(q.options)
            && st'.log[|st.log|].event.ranking == TopFive(st.sessions[si].players)
  {
    var q := QuizOf(st, si)[k];
    HistogramCounts(OfSession(st.participations, id), q.id, b);
  }

  /**
   * The token is keyed by session, not by question: a conclusion for an
   * older question k consumes the token armed for the current one, whose
   * timer then does nothing, and the advance it schedules goes to k + 1.
   */
  lemma StaleConcludeTakesCurrentToken(st: State, id: string, k: nat)
    requires id in st.timers && st.timers[id] != k
    ensures id !in Conclude(st, id, k).timers
    ensures TimerFired(Conclude(st, id, k), id) == Conclude(st, id, k)
    ensures forall j :: |st.pauses| <= j < |Conclude(st, id, k).pauses| ==>
              Conclude(st, id, k).pauses[j].next == k + 1 != st.timers[id] + 1
  {
  }

  /**
   * `gestionarCicloPregunta` past the last question closes the session and
   * leaves no token.
   */
  lemma AdvancePastEndCloses(st: State, id: string, i: nat, si: nat)
    requires FindSession(st.sessions, id) == Some(si)
    requires i >= |QuizOf(st, si)|
    ensures id !in Advance(st, id, i).timers
    ensures Advance(st, id, i).sessions[si].phase == Finalizada
    ensures forall j :: 0 <= j < |st.participations| && st.participations[j].sessionId == id
              ==> Advance(st, id, i).participations[j].state == Finalizada
  {
  }

  /**
   * Before the end, an advance arms exactly one token, for question i, and
   * broadcasts question i as number i + 1 of the quiz, with the option
   * texts only and the time budget of the session configuration (20 s when
   * unset); the stored session, including `stats.preguntaActual`, is unchanged.
   */
  lemma AdvanceArmsOneToken(st: State, id: string, i: nat, si: nat)
    requires FindSession(st.sessions, id) == Some(si)
    requires i < |QuizOf(st, si)|
    ensures var st' := Advance(st, id, i);
            && st'.timers == (st.timers - {id})[id := i]
            && st'.sessions == st.sessions
            && st'.participations == st.participations
            && |st'.log| == |st.log| + 1 && st'.log[..|st.log|] == st.log
            && Announces(st'.log[|st.log|], st.sessions[si].pin, QuizOf(st, si)[i], i + 1,
                         |QuizOf(st, si)|, TimeLimit(st.sessions[si].live))
  {
  }

  /** A `nueva_pregunta` broadcast to room `pin` showing question q as `number` of `total`. */
  predicate Announces(e: Emit, pin: string, q: Question, number: nat, total: nat, limit: int) {
    && e.room == pin
    && e.event.QuestionStarted?
    && e.event.view.number == number
    && e.event.view.total == total
    && e.event.view.timeLimit == limit
    && e.event.view.options == seq(|q.options|, k requires 0 <= k < |q.options| => q.options[k].text)
  }

  /**
   * After the results of question k, the pause's advance targets exactly
   * k + 1: when the quiz has a question k + 1 the session's token is armed
   * for it, otherwise the session closes.
   */
  lemma ResultsLeadToNextQuestion(st: State, id: string, k: nat, si: nat)
    requires id in st.timers
    requires FindSession(st.sessions, id) == Some(si)
    requires k < |QuizOf(st, si)|
    ensures var st' := Conclude(st, id, k);
            var st'' := PauseElapsed(st', |st.pauses|);
            && (k + 1 < |QuizOf(st, si)| ==> id in st''.timers && st''.timers[id] == k + 1)
            && (k + 1 >= |QuizOf(st, si)| ==> id !in st''.timers && st''.sessions[si].phase == Finalizada)
  {
    var st' := Conclude(st, id, k);
    assert st'.pauses[|st.pauses|] == PendingAdvance(id, k + 1);
    var rest := st'.pauses[..|st.pauses|] + st'.pauses[|st.pauses| + 1..];
    assert FindSession(st'.(pauses := rest).sessions, id) == Some(si);
    if k + 1 < |QuizOf(st, si)| {
      AdvanceArmsOneToken(st'.(pauses := rest), id, k + 1, si);
    } else {
      AdvancePastEndCloses(st'.(pauses := rest), id, k + 1, si);
    }
  }

  /**
   * Closing twice reaches the same state apart from the log: the second
   * close finds no token, the phase already finished and every
   * participation already marked, and broadcasts the final results again.
   */
  lemma CloseIdempotent(st: State, si: nat)
    requires si < |st.sessions|
    ensures var once := Close(st, si);
            var twice := Close(once, si);
            && twice.timers == once.timers
            && twice.sessions == once.sessions
            && twice.participations == once.participations
            && twice.pauses == once.pauses
            && |twice.log| == |once.log| + 1
  {
    var once := Close(st, si);
    var twice := Close(once, si);
    assert once.sessions[si].id == st.sessions[si].id;
    forall j | 0 <= j < |once.participations|
      ensures twice.participations[j] == once.participations[j]
    {
    }
  }

  /**
   * Close is not guarded by phase and does not cancel the pending pause: a
   * manual finalize during the 8 s pause is still followed by an advance,
   * which broadcasts a new question and arms a token on a finished session.
   */
  lemma FinalizeDuringPauseStillAdvances(st: State, id: string, si: nat, j: nat)
    requires FindSession(st.sessions, id) == Some(si)
    requires j < |st.pauses| && st.pauses[j].sessionId == id
    requires st.pauses[j].next < |QuizOf(st, si)|
    ensures var fin := Finalize(st, id).st;
            var after := PauseElapsed(fin, j);
            && fin.sessions[si].phase == Finalizada
            && after.sessions[si].phase == Finalizada
            && id in after.timers && after.timers[id] == st.pauses[j].next
  {
    var fin := Finalize(st, id).st;
    assert fin == Close(st, si);
    var rest := fin.pauses[..j] + fin.pauses[j + 1..];
    FindSessionSameIds(st.sessions, fin.sessions, id);
    AdvanceArmsOneToken(fin.(pauses := rest), id, st.pauses[j].next, si);
  }

  /**
   * Start has no phase guard: starting a finished exam session makes it
   * `activa` again, so phase monotonicity is not a guarantee of the code.
   */
  lemma StartReopensFinished(st: State, id: string, si: nat)
    requires FindSession(st.sessions, id) == Some(si)
    requires st.sessions[si].phase == Finalizada && st.sessions[si].mode == Examen
    ensures Start(st, id).reply == Success(ExamenIniciado)
    ensures Start(st, id).st.sessions[si].phase == Activa
  {
  }

  /**
   * A join of a student already on the roster changes nothing. A new
   * student gets one roster entry at the end, with status `activo` and zero
   * totals, and exactly one new participation, in `activa` state with an
   * empty ledger and the session's mode; the broadcast count is the new
   * roster length.
   */
  lemma JoinEffect(st: State, pin: string, studentId: string, name: string, si: nat)
    requires FindOpenByPin(st.sessions, pin) == Some(si)
    ensures var o := Join(st, pin, studentId, name);
            var s := st.sessions[si];
            && o.reply.Success?
            && o.reply.value.sessionId == s.id
            && (s.mode == EnVivo <==> o.reply.value.config.Some?)
            && (OnRoster(s.players, studentId) ==> o.st == st)
            && (!OnRoster(s.players, studentId) ==>
                  && |o.st.sessions| == |st.sessions|
                  && o.st.sessions[si].players == s.players + [NewPlayer(studentId, name)]
                  && o.st.sessions[si].players[|s.players|].status == Activo
                  && o.st.sessions[si].players[|s.players|].score == 0
                  && o.st.sessions[si].stats == s.stats
                  && o.st.participations == st.participations + [NewParticipation(s.id, studentId, s.mode)]
                  && o.st.log == st.log + [Emit(pin, PlayerJoined(name, studentId, |s.players| + 1))])
  {
  }

  /** A join of a pin whose sessions are all finished (or absent) fails and changes nothing. */
  lemma JoinFinishedFails(st: State, pin: string, studentId: string, name: string)
    requires forall i :: 0 <= i < |st.sessions| && st.sessions[i].pin == pin ==> st.sessions[i].phase == Finalizada
    ensures Join(st, pin, studentId, name) == Out(st, Failure(SessionNotFound))
  {
  }

  /**
   * A graded routed answer appends one record, moves exactly one of the
   * correct/wrong counters, adds the points to the participation total,
   * and the roster shows that total for the student. Correct answers earn
   * the speed-bonus points over the session's limit, wrong ones earn 0.
   */
  lemma AnswerGradedEffect(st: State, sub: Submission, si: nat, pi: nat)
    requires FindSession(st.sessions, sub.sessionId) == Some(si)
    requires FindParticipation(st.participations, sub.sessionId, sub.studentId) == Some(pi)
    requires Answer(st, sub).reply.Success? && Answer(st, sub).reply.value.Graded?
    ensures var o := Answer(st, sub);
            var p := st.participations[pi];
            var p' := o.st.participations[pi];
            var g := o.reply.value;
            && sub.selected.Some?
            && FindQuestion(st.questions, sub.questionId).Some?
            && p'.answers == p.answers + [AnswerRecord(sub.questionId, sub.selected.value, g.isCorrect, sub.seconds, g.points)]
            && p'.correct + p'.wrong == p.correct + p.wrong + 1
            && (g.isCorrect <==> p'.correct == p.correct + 1)
            && p'.score == p.score + g.points
            && (g.isCorrect ==> g.points == RoutedSpeedPoints(
                   EffectiveMax(FindQuestion(st.questions, sub.questionId).value.maxPoints),
                   sub.seconds, TimeLimit(st.sessions[si].live)))
            && (!g.isCorrect ==> g.points == 0)
            && o.st.sessions[si].phase == Activa
            && |o.st.sessions[si].players| == |st.sessions[si].players|
            && (forall k :: FindPlayer(st.sessions[si].players, sub.studentId) == Some(k)
                  ==> o.st.sessions[si].players[k].score == p'.score)
  {
    var s := st.sessions[si];
    var p := st.participations[pi];
    assert !Answered(p, sub.questionId);
    var q := FindQuestion(st.questions, sub.questionId).value;
    var sel := sub.selected.value;
    var ok := RoutedCorrect(sel, q.options);
    var points := RoutedPoints(s, q, sel, sub.seconds);
    var p' := Record(p, sub, ok, points);
    var ps := st.participations[pi := p'];
    var players := MirrorScore(s.players, sub.studentId, p'.score);
    assert Answer(st, sub).reply == Success(Graded(ok, points));
    assert Answer(st, sub).st.participations == ps;
    assert Answer(st, sub).st.sessions == st.sessions[si := s.(players := players)];
  }

  /**
   * A correct routed answer given within the limit earns between
   * round(max / 2) and max, for a positive limit and a nonnegative maximum.
   */
  lemma AnswerPointsInRange(max: int, seconds: int, limit: int)
    requires max >= 0 && limit > 0 && seconds >= 0
    ensures RoundHalfUp(max, 2) <= RoutedSpeedPoints(max, seconds, limit) <= max
  {
    SpeedPointsBounds(max, if seconds < limit then seconds else limit, limit);
  }

  /**
   * Early conclusion compares the number of participations holding an
   * answer with the whole roster length, abandoned players included: below
   * that count a graded answer leaves the token table alone.
   */
  lemma EarlyConcludeNeedsWholeRoster(st: State, sub: Submission, si: nat, pi: nat)
    requires FindSession(st.sessions, sub.sessionId) == Some(si)
    requires FindParticipation(st.participations, sub.sessionId, sub.studentId) == Some(pi)
    requires Answer(st, sub).reply.Success? && Answer(st, sub).reply.value.Graded?
    requires AnsweredCount(Answer(st, sub).st.participations, sub.sessionId, sub.questionId)
             < |st.sessions[si].players|
    ensures Answer(st, sub).st.timers == st.timers
    ensures Answer(st, sub).st.pauses == st.pauses
  {
  }

  /**
   * When the count of participations holding an answer reaches the roster
   * length and the question has a place k in the quiz, the answer
   * concludes question k: the session's token is gone, and if it was armed
   * the results go out and the pause that advances to k + 1 is queued.
   */
  lemma EarlyConcludeFires(st: State, sub: Submission, si: nat, pi: nat, k: nat)
    requires FindSession(st.sessions, sub.sessionId) == Some(si)
    requires FindParticipation(st.participations, sub.sessionId, sub.studentId) == Some(pi)
    requires Answer(st, sub).reply.Success? && Answer(st, sub).reply.value.Graded?
    requires AnsweredCount(Answer(st, sub).st.participations, sub.sessionId, sub.questionId)
             >= |st.sessions[si].players|
    requires PositionOf(QuizOf(st, si), sub.questionId) == Some(k)
    ensures sub.sessionId !in Answer(st, sub).st.timers
    ensures Answer(st, sub).st.timers == st.timers - {sub.sessionId}
    ensures sub.sessionId in st.timers ==>
              && Answer(st, sub).st.pauses == st.pauses + [PendingAdvance(sub.sessionId, k + 1)]
              && |Answer(st, sub).st.log| == |st.log| + 1
              && Answer(st, sub).st.log[|st.log|].event.QuestionResults?
  {
    AnswerGradedSplit(st, sub, si, pi);
    var q := FindQuestion(st.questions, sub.questionId).value;
    WriteThenConclude(st, sub, si, pi, q, k);
  }

  /** The early-conclusion trigger after the writes of a graded answer, when it fires. */
  lemma WriteThenConclude(st: State, sub: Submission, si: nat, pi: nat, q: Question, k: nat)
    requires FindSession(st.sessions, sub.sessionId) == Some(si)
    requires pi < |st.participations| && sub.selected.Some?
    requires AnsweredCount(GradedWrite(st, si, pi, q, sub).participations, sub.sessionId, sub.questionId)
             >= |st.sessions[si].players|
    requires PositionOf(QuizOf(st, si), sub.questionId) == Some(k)
    ensures var st2 := EarlyConclude(GradedWrite(st, si, pi, q, sub), st.sessions[si], sub);
            && st2.timers == st.timers - {sub.sessionId}
            && (sub.sessionId in st.timers ==>
                  && st2.pauses == st.pauses + [PendingAdvance(sub.sessionId, k + 1)]
                  && |st2.log| == |st.log| + 1
                  && st2.log[|st.log|].event.QuestionResults?)
  {
    var st1 := GradedWrite(st, si, pi, q, sub);
    FindSessionSameIds(st.sessions, st1.sessions, sub.sessionId);
    assert QuizOf(st1, si) == QuizOf(st, si);
    assert EarlyConclude(st1, st.sessions[si], sub) == Conclude(st1, sub.sessionId, k);
    if sub.sessionId in st.timers {
      ConcludeArmed(st1, sub.sessionId, si, k);
    }
  }

  /**
   * Concluding question k of an armed session whose quiz has a question k
   * broadcasts the results once and queues exactly the pause to k + 1.
   */
  lemma ConcludeArmed(st: State, id: string, si: nat, k: nat)
    requires id in st.timers
    requires FindSession(st.sessions, id) == Some(si)
    requires k < |QuizOf(st, si)|
    ensures Conclude(st, id, k).pauses == st.pauses + [PendingAdvance(id, k + 1)]
    ensures |Conclude(st, id, k).log| == |st.log| + 1
  {
    var st' := Conclude(st, id, k);
    assert |st'.pauses| == |st.pauses| + 1;
    assert st'.pauses == st'.pauses[..|st.pauses|] + [st'.pauses[|st.pauses|]];
  }

  /**
   * The graded path, forwards: in an `activa` session, a participation
   * without a record for the question, a known question and a selection
   * always give a graded answer, whose state is the writes followed by the
   * early-conclusion trigger.
   */
  lemma AnswerGradesFresh(st: State, sub: Submission, si: nat, pi: nat, q: Question)
    requires FindSession(st.sessions, sub.sessionId) == Some(si)
    requires st.sessions[si].phase == Activa
    requires FindParticipation(st.participations, sub.sessionId, sub.studentId) == Some(pi)
    requires !Answered(st.participations[pi], sub.questionId)
    requires FindQuestion(st.questions, sub.questionId) == Some(q)
    requires sub.selected.Some?
    ensures Answer(st, sub)
            == Out(EarlyConclude(GradedWrite(st, si, pi, q, sub), st.sessions[si], sub),
                   Success(Graded(RoutedCorrect(sub.selected.value, q.options),
                                  RoutedPoints(st.sessions[si], q, sub.selected.value, sub.seconds))))
  {
  }

  /** A graded answer is its writes followed by the early-conclusion trigger. */
  lemma AnswerGradedSplit(st: State, sub: Submission, si: nat, pi: nat)
    requires FindSession(st.sessions, sub.sessionId) == Some(si)
    requires FindParticipation(st.participations, sub.sessionId, sub.studentId) == Some(pi)
    requires Answer(st, sub).reply.Success? && Answer(st, sub).reply.value.Graded?
    ensures FindQuestion(st.questions, sub.questionId).Some? && sub.selected.Some?
    ensures Answer(st, sub).st
            == EarlyConclude(GradedWrite(st, si, pi, FindQuestion(st.questions, sub.questionId).value, sub),
                             st.sessions[si], sub)
  {
    assert !Answered(st.participations[pi], sub.questionId);
  }

  /**
   * A question that is not part of the session's quiz is never concluded
   * early, whatever the count: the token and the pauses stay as they were.
   */
  lemma AnswerOutsideQuizNeverConcludes(st: State, sub: Submission, si: nat)
    requires FindSession(st.sessions, sub.sessionId) == Some(si)
    requires PositionOf(QuizOf(st, si), sub.questionId).None?
    ensures Answer(st, sub).st.timers == st.timers
    ensures Answer(st, sub).st.pauses == st.pauses
  {
  }

  /**
   * The routed repeat rule: in an `activa` session, a student with a
   * participation gets `{ yaRespondida: true }` exactly when the ledger
   * already holds a record for the question, and nothing is written.
   */
  lemma RoutedRepeat(st: State, sub: Submission, si: nat, pi: nat)
    requires FindSession(st.sessions, sub.sessionId) == Some(si)
    requires st.sessions[si].phase == Activa
    requires FindParticipation(st.participations, sub.sessionId, sub.studentId) == Some(pi)
    ensures Answered(st.participations[pi], sub.questionId) ==> Answer(st, sub) == Out(st, Success(AlreadyAnswered))
    ensures Answer(st, sub).reply == Success(AlreadyAnswered) ==> Answered(st.participations[pi], sub.questionId)
  {
  }

  /**
   * The routed rejections: an unknown or non-`activa` session gives
   * 'Partida no activa', a student without a participation 'No participas',
   * and neither writes anything.
   */
  lemma RoutedRejections(st: State, sub: Submission)
    ensures (FindSession(st.sessions, sub.sessionId).None?
             || st.sessions[FindSession(st.sessions, sub.sessionId).value].phase != Activa)
            ==> Answer(st, sub) == Out(st, Failure(SessionNotActive))
    ensures (FindSession(st.sessions, sub.sessionId).Some?
             && st.sessions[FindSession(st.sessions, sub.sessionId).value].phase == Activa
             && FindParticipation(st.participations, sub.sessionId, sub.studentId).None?)
            ==> Answer(st, sub) == Out(st, Failure(NotParticipating))
  {
  }

  /**
   * `iniciarPartida` on a stored session. An exam session only becomes
   * `activa`. A live session becomes `activa` and launches question 0 as
   * number 1, with the session's token armed for it; a live session whose
   * quiz has no question is closed on the spot.
   */
  lemma StartLaunches(st: State, id: string, si: nat)
    requires FindSession(st.sessions, id) == Some(si)
    ensures var o := Start(st, id);
            var s := st.sessions[si];
            && |o.st.sessions| == |st.sessions|
            && (s.mode == Examen ==>
                  && o.reply == Success(ExamenIniciado)
                  && o.st.sessions == st.sessions[si := s.(phase := Activa)]
                  && o.st.timers == st.timers && o.st.log == st.log)
            && (s.mode == EnVivo && |QuizOf(st, si)| > 0 ==>
                  && o.reply == Success(Iniciada)
                  && o.st.sessions[si].phase == Activa
                  && o.st.timers == (st.timers - {id})[id := 0]
                  && |o.st.log| == |st.log| + 1
                  && Announces(o.st.log[|st.log|], s.pin, QuizOf(st, si)[0], 1, |QuizOf(st, si)|, TimeLimit(s.live)))
            && (s.mode == EnVivo && |QuizOf(st, si)| == 0 ==>
                  && o.reply == Success(Iniciada)
                  && o.st.sessions[si].phase == Finalizada
                  && id !in o.st.timers)
  {
    var s := st.sessions[si];
    var st1 := st.(sessions := st.sessions[si := s.(phase := Activa)]);
    FindSessionSameIds(st.sessions, st1.sessions, id);
    assert QuizOf(st1, si) == QuizOf(st, si);
    if s.mode == EnVivo {
      if |QuizOf(st, si)| > 0 {
        AdvanceArmsOneToken(st1, id, 0, si);
      } else {
        AdvancePastEndCloses(st1, id, 0, si);
      }
    }
  }
}
