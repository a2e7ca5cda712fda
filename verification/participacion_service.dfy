/**
 * The answer ledger of Backend/src/services/participacionService.js:
 * `enviarRespuesta` with its live and exam policies, `obtenerMiProgreso`
 * and `obtenerRankingPartida`. Errors carry the HTTP status the service
 * attaches to them.
 */
module ParticipacionService {

  import opened Wrappers
  import opened Seqs
  import opened Constants
  import opened PreguntaModel
  import opened PartidaModel
  import opened ParticipacionModel
  import opened Scoring
  import opened Store
  import PartidaService

  /** `httpError(status, message)`. */
  datatype HttpError = HttpError(status: nat, message: string)

  const MissingIds: HttpError := HttpError(400, "idPartida, idAlumno y idPregunta son obligatorios.")
  const NotParticipating: HttpError := HttpError(404, "No estás participando en esta partida.")
  const QuestionNotFound: HttpError := HttpError(404, "Pregunta no encontrada")
  const MissingProgressIds: HttpError := HttpError(400, "idPartida e idAlumno son requeridos.")
  const ProgressNotFound: HttpError := HttpError(404, "No encontrado")
  const MissingSessionId: HttpError := HttpError(400, "idPartida es requerido.")

  /** A new state and the service's reply. */
  datatype Outcome<R> = Outcome(st: State, reply: Result<R, HttpError>)

  /** `{ yaRespondida: true }` or `{ esCorrecta, puntosGanados, yaRespondida: false }`. */
  datatype LedgerReply = Repeated | Registered(isCorrect: bool, points: int)

  /** The ledger's time budget: the question schema has no limit field, so it is always 20 s. */
  const LedgerLimit: int := 20

  /**
   * Points for an answer: 0 when wrong; in live mode the speed bonus over
   * the clamped time; in exam mode the full maximum.
   */
  function LedgerPoints(mode: GameMode, isCorrect: bool, maxPoints: int, seconds: int): (pts: int)
    ensures !isCorrect ==> pts == 0
    ensures isCorrect && mode == Examen ==> pts == EffectiveMax(maxPoints)
    ensures isCorrect && mode == EnVivo ==>
              (pts as real) <= (EffectiveMax(maxPoints) as real)
                               * (1.0 - ((Clamp(seconds, LedgerLimit) as real) / (LedgerLimit as real)) / 2.0) + 0.5
                            < (pts as real) + 1.0
  {
    if !isCorrect then 0
    else if mode == EnVivo then SpeedPoints(EffectiveMax(maxPoints), Clamp(seconds, LedgerLimit), LedgerLimit)
    else EffectiveMax(maxPoints)
  }

  /**
   * Live points lie between round(max / 2) and max whatever the reported
   * time, since the time is clamped to [0, 20]; exam points are the maximum.
   */
  lemma LedgerPointsRange(mode: GameMode, maxPoints: int, seconds: int)
    requires EffectiveMax(maxPoints) >= 0
    ensures RoundHalfUp(EffectiveMax(maxPoints), 2) <= LedgerPoints(mode, true, maxPoints, seconds) <= EffectiveMax(maxPoints)
    ensures seconds <= 0 ==> LedgerPoints(mode, true, maxPoints, seconds) == EffectiveMax(maxPoints)
    ensures mode == EnVivo && seconds >= LedgerLimit ==>
              LedgerPoints(mode, true, maxPoints, seconds) == RoundHalfUp(EffectiveMax(maxPoints), 2)
  {
    if mode == EnVivo {
      SpeedPointsBounds(EffectiveMax(maxPoints), Clamp(seconds, LedgerLimit), LedgerLimit);
    } else {
      SpeedPointsBounds(EffectiveMax(maxPoints), 0, LedgerLimit);
    }
  }

  /** The ledger without any record for the question (`$pull: { respuestas: { idPregunta } }`). */
  function Pull(answers: seq<AnswerRecord>, questionId: string): (r: seq<AnswerRecord>)
    ensures RecordsFor(r, questionId) == 0
    ensures forall q :: q != questionId ==> RecordsFor(r, q) == RecordsFor(answers, q)
    ensures |r| <= |answers|
  {
    var keep := (a: AnswerRecord) => a.questionId != questionId;
    PullCounts(answers, questionId);
    Filter(answers, keep)
  }

  lemma {:induction false} PullCounts(answers: seq<AnswerRecord>, questionId: string)
    ensures RecordsFor(Filter(answers, (a: AnswerRecord) => a.questionId != questionId), questionId) == 0
    ensures forall q :: q != questionId ==>
              RecordsFor(Filter(answers, (a: AnswerRecord) => a.questionId != questionId), q) == RecordsFor(answers, q)
    decreases |answers|
  {
    var keep := (a: AnswerRecord) => a.questionId != questionId;
    if |answers| > 0 {
      PullCounts(answers[1..], questionId);
      var rest := Filter(answers[1..], keep);
      if keep(answers[0]) {
        assert Filter(answers, keep) == [answers[0]] + rest;
        assert ([answers[0]] + rest)[1..] == rest;
        forall q
          ensures RecordsFor([answers[0]] + rest, q)
                  == (if answers[0].questionId == q then 1 else 0) + RecordsFor(rest, q)
          ensures RecordsFor(answers, q)
                  == (if answers[0].questionId == q then 1 else 0) + RecordsFor(answers[1..], q)
        {
        }
      } else {
        assert Filter(answers, keep) == rest;
        forall q | q != questionId
          ensures RecordsFor(answers, q) == RecordsFor(answers[1..], q)
        {
        }
      }
    }
  }

  /** `enviarRespuesta` from the answer ledger, over a state with the participation at `pi`. */
  function Register(st: State, pi: nat, q: Question, sub: PartidaService.Submission, delivered: bool): (o: Outcome<LedgerReply>)
    requires pi < |st.participations|
  {
    var p := st.participations[pi];
    var selected := SortAsc(sub.selected.GetOr([]));
    var ok := LedgerCorrect(sub.selected.GetOr([]), q.options);
    var points := LedgerPoints(p.mode, ok, q.maxPoints, sub.seconds);
    var record := AnswerRecord(q.id, selected, ok, sub.seconds, points);
    var kept := if p.mode != EnVivo && Answered(p, sub.questionId) then Pull(p.answers, q.id) else p.answers;
    var p' := p.(answers := kept + [record],
                 score := p.score + points,
                 correct := p.correct + (if ok then 1 else 0),
                 wrong := p.wrong + (if ok then 0 else 1));
    var log' := if p.mode == EnVivo && delivered then
                  match FindSession(st.sessions, sub.sessionId)
                  case Some(si) => st.log + [Emit(st.sessions[si].pin, VoteRegistered)]
                  case None => st.log
                else st.log;
    Outcome(st.(participations := st.participations[pi := p'], log := log'), Success(Registered(ok, points)))
  }

  /**
   * `enviarRespuesta(payload, io)`. `delivered` is false when looking up the
   * session for the broadcast throws; the failure is swallowed. There is no
   * check of the session's phase.
   */
  function Submit(st: State, sub: PartidaService.Submission, delivered: bool): (o: Outcome<LedgerReply>)
    ensures (sub.sessionId == "" || sub.studentId == "" || sub.questionId == "") ==>
              o == Outcome(st, Failure(MissingIds))
    ensures o.reply.Failure? ==> o.st == st && o.reply.error.status in {400, 404}
    ensures o.reply == Success(Repeated) ==> o.st == st
    ensures |o.st.participations| == |st.participations|
    ensures o.st.sessions == st.sessions && o.st.questions == st.questions
    ensures o.st.timers == st.timers && o.st.pauses == st.pauses
  {
    if sub.sessionId == "" || sub.studentId == "" || sub.questionId == "" then
      Outcome(st, Failure(MissingIds))
    else
      match FindParticipation(st.participations, sub.sessionId, sub.studentId)
      case None => Outcome(st, Failure(NotParticipating))
      case Some(pi) =>
        var p := st.participations[pi];
        if p.mode == EnVivo && Answered(p, sub.questionId) then Outcome(st, Success(Repeated))
        else
          match FindQuestion(st.questions, sub.questionId)
          case None => Outcome(st, Failure(QuestionNotFound))
          case Some(q) => Register(st, pi, q, sub.(selected := Some(sub.selected.GetOr([]))), delivered)
  }

  /**
   * The routing of `enviarRespuesta` once the three ids are present: no
   * participation gives 404 'No participas'; a live participation that
   * already holds the question is reported as a repeat, and only it; an
   * unknown question after that gives 404 'Pregunta no encontrada'. None of
   * them writes anything.
   */
  lemma SubmitRouting(st: State, sub: PartidaService.Submission, delivered: bool)
    requires sub.sessionId != "" && sub.studentId != "" && sub.questionId != ""
    ensures FindParticipation(st.participations, sub.sessionId, sub.studentId).None? ==>
              Submit(st, sub, delivered) == Outcome(st, Failure(NotParticipating))
    ensures LiveRepeat(st, sub) ==> Submit(st, sub, delivered) == Outcome(st, Success(Repeated))
    ensures Submit(st, sub, delivered).reply == Success(Repeated) ==> LiveRepeat(st, sub)
    ensures FindParticipation(st.participations, sub.sessionId, sub.studentId).Some? && !LiveRepeat(st, sub)
            && FindQuestion(st.questions, sub.questionId).None? ==>
              Submit(st, sub, delivered) == Outcome(st, Failure(QuestionNotFound))
  {
  }

  /** The student's participation in the session is live and already holds the question. */
  predicate LiveRepeat(st: State, sub: PartidaService.Submission) {
    match FindParticipation(st.participations, sub.sessionId, sub.studentId)
    case None => false
    case Some(pi) => st.participations[pi].mode == EnVivo && Answered(st.participations[pi], sub.questionId)
  }

  /** `obtenerMiProgreso`: the participation document of (session, student). */
  function Progress(st: State, sessionId: string, studentId: string): (r: Result<Participation, HttpError>)
    ensures (sessionId == "" || studentId == "") ==> r == Failure(MissingProgressIds)
    ensures r.Success? ==> r.value in st.participations
                           && r.value.sessionId == sessionId && r.value.studentId == studentId
    ensures r == Failure(ProgressNotFound) <==>
              sessionId != "" && studentId != "" &&
              forall i :: 0 <= i < |st.participations| ==>
                !(st.participations[i].sessionId == sessionId && st.participations[i].studentId == studentId)
  {
    if sessionId == "" || studentId == "" then Failure(MissingProgressIds)
    else match FindParticipation(st.participations, sessionId, studentId)
      case None => Failure(ProgressNotFound)
      case Some(pi) => Success(st.participations[pi])
  }

  /** A row of the session ranking: `idAlumno puntuacionTotal aciertos fallos`. */
  datatype RankRow = RankRow(studentId: string, score: int, correct: int, wrong: int)

  /** Default row count of `obtenerRankingPartida`. */
  const DefaultRankingLimit: nat := 10

  function ByTotal(p: Participation): int {
    p.score
  }

  function Row(p: Participation): RankRow {
    RankRow(p.studentId, p.score, p.correct, p.wrong)
  }

  /** Mongo's `limit(n)`: 0 means no limit. */
  function Limited<T>(s: seq<T>, limit: nat): (r: seq<T>)
    ensures |r| == if limit == 0 || |s| <= limit then |s| else limit
    ensures r == s[..|r|]
  {
    if limit == 0 then s else Take(s, limit)
  }

  /** The session's participations, sorted by total and cut to the limit. */
  function RankedParticipations(st: State, sessionId: string, limit: nat): seq<Participation> {
    Limited(SortDesc(OfSession(st.participations, sessionId), ByTotal), limit)
  }

  /**
   * `obtenerRankingPartida(idPartida, limit = 10)`: 400 without an id;
   * otherwise the session's participations in non-increasing order of
   * total, at most `limit` of them (all of them for a limit of 0).
   */
  function RankingPartida(st: State, sessionId: string, limit: Option<nat>): (r: Result<seq<RankRow>, HttpError>)
    ensures sessionId == "" <==> r == Failure(MissingSessionId)
    ensures r.Success? ==>
              var n := |OfSession(st.participations, sessionId)|;
              var l := limit.GetOr(DefaultRankingLimit);
              && |r.value| == (if l == 0 || n <= l then n else l)
              && (forall i, j :: 0 <= i < j < |r.value| ==> r.value[i].score >= r.value[j].score)
              && (forall i :: 0 <= i < |r.value| ==>
                    exists k :: 0 <= k < |st.participations| && st.participations[k].sessionId == sessionId
                                && r.value[i] == Row(st.participations[k]))
  {
    if sessionId == "" then Failure(MissingSessionId)
    else
      var top := RankedParticipations(st, sessionId, limit.GetOr(DefaultRankingLimit));
      RankedSpec(st, sessionId, limit.GetOr(DefaultRankingLimit));
      Success(seq(|top|, i requires 0 <= i < |top| => Row(top[i])))
  }

  lemma RankedSpec(st: State, sessionId: string, limit: nat)
    ensures SortedDesc(RankedParticipations(st, sessionId, limit), ByTotal)
    ensures forall i :: 0 <= i < |RankedParticipations(st, sessionId, limit)| ==>
              var p := RankedParticipations(st, sessionId, limit)[i];
              p.sessionId == sessionId && p in st.participations
  {
    var parts := OfSession(st.participations, sessionId);
    var sorted := SortDesc(parts, ByTotal);
    SortDescSpec(parts, ByTotal);
    forall i | 0 <= i < |RankedParticipations(st, sessionId, limit)|
      ensures RankedParticipations(st, sessionId, limit)[i] in parts
    {
      assert RankedParticipations(st, sessionId, limit)[i] == sorted[i];
      assert sorted[i] in multiset(parts);
    }
  }

  /**
   * The rows are those of distinct participations: they are the leading
   * rows of an arrangement of the session's participations, each stored
   * participation used at most as often as it is stored.
   */
  lemma RankingRowsFromSession(st: State, sessionId: string, limit: Option<nat>)
    requires sessionId != ""
    ensures var rows := RankingPartida(st, sessionId, limit).value;
            exists perm: seq<Participation> ::
              && multiset(perm) == multiset(OfSession(st.participations, sessionId))
              && |rows| <= |perm|
              && forall i :: 0 <= i < |rows| ==> rows[i] == Row(perm[i])
  {
    var parts := OfSession(st.participations, sessionId);
    var perm := SortDesc(parts, ByTotal);
    SortDescSpec(parts, ByTotal);
    var top := RankedParticipations(st, sessionId, limit.GetOr(DefaultRankingLimit));
    assert top == perm[..|top|];
    var rows := RankingPartida(st, sessionId, limit).value;
    assert |rows| == |top|;
    forall i | 0 <= i < |rows|
      ensures rows[i] == Row(perm[i])
    {
      assert rows[i] == Row(top[i]);
    }
  }

  /**
   * A registered answer appends one record holding the sorted selection,
   * its verdict and the awarded points; the verdict holds exactly when the
   * selection is a rearrangement of the correct indices; exactly one of the
   * counters moves and the total rises by the points.
   */
  lemma SubmitRegisteredEffect(st: State, sub: PartidaService.Submission, delivered: bool, pi: nat)
    requires FindParticipation(st.participations, sub.sessionId, sub.studentId) == Some(pi)
    requires Submit(st, sub, delivered).reply.Success? && Submit(st, sub, delivered).reply.value.Registered?
    ensures var o := Submit(st, sub, delivered);
            var p := st.participations[pi];
            var p' := o.st.participations[pi];
            var g := o.reply.value;
            var sel := sub.selected.GetOr([]);
            && FindQuestion(st.questions, sub.questionId).Some?
            && |p'.answers| > 0
            && p'.answers[|p'.answers| - 1] == AnswerRecord(sub.questionId, SortAsc(sel), g.isCorrect, sub.seconds, g.points)
            && SortedAsc(p'.answers[|p'.answers| - 1].selected)
            && (g.isCorrect <==> multiset(sel) == multiset(CorrectIndices(FindQuestion(st.questions, sub.questionId).value.options)))
            && g.points == LedgerPoints(p.mode, g.isCorrect, FindQuestion(st.questions, sub.questionId).value.maxPoints, sub.seconds)
            && p'.correct + p'.wrong == p.correct + p.wrong + 1
            && (g.isCorrect <==> p'.correct == p.correct + 1)
            && p'.score == p.score + g.points
            && (forall j :: 0 <= j < |st.participations| && j != pi ==> o.st.participations[j] == st.participations[j])
  {
    var sel := sub.selected.GetOr([]);
    var q := FindQuestion(st.questions, sub.questionId).value;
    LedgerCorrectIffPermutation(sel, q.options);
    SortAscSpec(sel);
  }

  /**
   * After a registered answer the ledger holds exactly one record for the
   * question, in both modes, and the count for every other question is
   * unchanged: one record per question is an invariant of the ledger.
   */
  lemma OneRecordPerQuestion(st: State, sub: PartidaService.Submission, delivered: bool, pi: nat)
    requires FindParticipation(st.participations, sub.sessionId, sub.studentId) == Some(pi)
    requires Submit(st, sub, delivered).reply.Success? && Submit(st, sub, delivered).reply.value.Registered?
    ensures var p := st.participations[pi];
            var p' := Submit(st, sub, delivered).st.participations[pi];
            && RecordsFor(p'.answers, sub.questionId) == 1
            && (forall q :: q != sub.questionId ==> RecordsFor(p'.answers, q) == RecordsFor(p.answers, q))
  {
    var p := st.participations[pi];
    var o := Submit(st, sub, delivered);
    var q := FindQuestion(st.questions, sub.questionId).value;
    var rec := o.st.participations[pi].answers[|o.st.participations[pi].answers| - 1];
    var kept := if p.mode != EnVivo && Answered(p, sub.questionId) then Pull(p.answers, q.id) else p.answers;
    assert o.st.participations[pi].answers == kept + [rec];
    if !(p.mode != EnVivo && Answered(p, sub.questionId)) {
      NoRecordCountsZero(p.answers, sub.questionId);
    }
    forall qid
      ensures RecordsFor(kept + [rec], qid) == RecordsFor(kept, qid) + (if rec.questionId == qid then 1 else 0)
    {
      RecordsSnoc(kept, rec, qid);
    }
  }

  lemma {:induction false} NoRecordCountsZero(answers: seq<AnswerRecord>, questionId: string)
    requires forall i :: 0 <= i < |answers| ==> answers[i].questionId != questionId
    ensures RecordsFor(answers, questionId) == 0
    decreases |answers|
  {
    if |answers| > 0 {
      NoRecordCountsZero(answers[1..], questionId);
    }
  }

  lemma {:induction false} RecordsSnoc(answers: seq<AnswerRecord>, r: AnswerRecord, questionId: string)
    ensures RecordsFor(answers + [r], questionId) == RecordsFor(answers, questionId) + (if r.questionId == questionId then 1 else 0)
    decreases |answers|
  {
    if |answers| > 0 {
      assert (answers + [r])[1..] == answers[1..] + [r];
      RecordsSnoc(answers[1..], r, questionId);
    }
  }

  /**
   * An exam resubmission replaces the record but adds to the counters
   * again: the ledger does not grow while aciertos + fallos does, so the
   * counters overstate the number of answered questions.
   */
  lemma ExamResubmissionInflatesCounters(st: State, sub: PartidaService.Submission, delivered: bool, pi: nat)
    requires FindParticipation(st.participations, sub.sessionId, sub.studentId) == Some(pi)
    requires sub.sessionId != "" && sub.studentId != "" && sub.questionId != ""
    requires st.participations[pi].mode == Examen && Answered(st.participations[pi], sub.questionId)
    requires FindQuestion(st.questions, sub.questionId).Some?
    ensures var p := st.participations[pi];
            var p' := Submit(st, sub, delivered).st.participations[pi];
            && Submit(st, sub, delivered).reply.Success?
            && |p'.answers| <= |p.answers|
            && p'.correct + p'.wrong == p.correct + p.wrong + 1
  {
    var p := st.participations[pi];
    var k :| 0 <= k < |p.answers| && p.answers[k].questionId == sub.questionId;
    PullShrinks(p.answers, sub.questionId, k);
  }

  lemma {:induction false} PullShrinks(answers: seq<AnswerRecord>, questionId: string, k: nat)
    requires k < |answers| && answers[k].questionId == questionId
    ensures |Pull(answers, questionId)| < |answers|
    decreases |answers|
  {
    var keep := (a: AnswerRecord) => a.questionId != questionId;
    if k > 0 {
      PullShrinks(answers[1..], questionId, k - 1);
      assert Pull(answers[1..], questionId) == Filter(answers[1..], keep);
    }
  }

  /**
   * The broadcast never changes the reply or the ledger: with or without a
   * delivered notice the outcome is the same apart from at most one
   * `VoteRegistered` event, which only live mode sends.
   */
  lemma DeliveryDoesNotAffectReply(st: State, sub: PartidaService.Submission)
    ensures Submit(st, sub, true).reply == Submit(st, sub, false).reply
    ensures Submit(st, sub, true).st.participations == Submit(st, sub, false).st.participations
    ensures Submit(st, sub, false).st.log == st.log
    ensures Submit(st, sub, true).st.log == st.log
            || Submit(st, sub, true).st.log == st.log + [Emit(Submit(st, sub, true).st.log[|st.log|].room, VoteRegistered)]
    ensures (forall pi :: FindParticipation(st.participations, sub.sessionId, sub.studentId) == Some(pi)
               && st.participations[pi].mode == Examen) ==> Submit(st, sub, true).st.log == st.log
  {
  }

  /** A selection that is not an array is graded as the empty selection. */
  lemma AbsentSelectionIsEmpty(st: State, sub: PartidaService.Submission, delivered: bool)
    requires sub.selected.None?
    ensures Submit(st, sub, delivered) == Submit(st, sub.(selected := Some([])), delivered)
  {
    assert sub.(selected := Some(sub.selected.GetOr([]))) == sub.(selected := Some([]));
  }

  /** The ledger has no phase check: finishing the session does not change any reply. */
  lemma LedgerIgnoresPhase(st: State, sub: PartidaService.Submission, delivered: bool, si: nat)
    requires si < |st.sessions|
    ensures var st' := st.(sessions := st.sessions[si := st.sessions[si].(phase := Finalizada)]);
            Submit(st', sub, delivered).reply == Submit(st, sub, delivered).reply
  {
    var st' := st.(sessions := st.sessions[si := st.sessions[si].(phase := Finalizada)]);
    assert st'.participations == st.participations && st'.questions == st.questions;
    if sub.sessionId != "" && sub.studentId != "" && sub.questionId != "" {
      match FindParticipation(st.participations, sub.sessionId, sub.studentId)
      case None =>
      case Some(pi) =>
        var sub' := sub.(selected := Some(sub.selected.GetOr([])));
        match FindQuestion(st.questions, sub.questionId)
        case None =>
        case Some(q) =>
          RegisterReply(st, pi, q, sub', delivered);
          RegisterReply(st', pi, q, sub', delivered);
    }
  }

  /** The ledger's reply depends on the participation and the question only. */
  lemma RegisterReply(st: State, pi: nat, q: Question, sub: PartidaService.Submission, delivered: bool)
    requires pi < |st.participations|
    ensures var ok := LedgerCorrect(sub.selected.GetOr([]), q.options);
            Register(st, pi, q, sub, delivered).reply
              == Success(Registered(ok, LedgerPoints(st.participations[pi].mode, ok, q.maxPoints, sub.seconds)))
  {
  }

  /**
   * The ranking keeps the best totals: a participation of the session left
   * out of a limited ranking scores no more than its last row.
   */
  lemma RankingPartidaSelectsHighest(st: State, sessionId: string, limit: nat, k: nat)
    requires sessionId != "" && limit > 0
    requires k < |st.participations| && st.participations[k].sessionId == sessionId
    requires st.participations[k] !in RankedParticipations(st, sessionId, limit)
    ensures var rows := RankingPartida(st, sessionId, Some(limit)).value;
            |rows| == limit && st.participations[k].score <= rows[limit - 1].score
  {
    var parts := OfSession(st.participations, sessionId);
    var sorted := SortDesc(parts, ByTotal);
    SortDescSpec(parts, ByTotal);
    var p := st.participations[k];
    assert p in parts;
    assert p in multiset(sorted);
    var j :| 0 <= j < |sorted| && sorted[j] == p;
    var top := RankedParticipations(st, sessionId, limit);
    assert j >= |top|;
    assert |top| == limit;
    assert top[limit - 1] == sorted[limit - 1];
    var rows := RankingPartida(st, sessionId, Some(limit)).value;
    assert |rows| == |top| && rows[limit - 1] == Row(top[limit - 1]);
  }
}
