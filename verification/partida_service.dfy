/**
 * The live-session orchestrator of Backend/src/services/partidaService.js:
 * join, start, the question cycle driven by the per-session timer token,
 * the guarded conclusion of a question, the routed answer intake with its
 * early-conclusion trigger, and the close shared by natural exhaustion and
 * manual finalize. Each function maps a state to the next state.
 */
module PartidaService {

  import opened Wrappers
  import opened Seqs
  import opened Constants
  import opened PreguntaModel
  import opened PartidaModel
  import opened ParticipacionModel
  import opened Scoring
  import opened Ranking
  import opened Store

  /** The errors the service throws (all reach the client as HTTP 500). */
  datatype GameError =
    | SessionNotFound    // 'Partida no encontrada'
    | SessionNotActive   // 'Partida no activa'
    | NotParticipating   // 'No participas'
    | HandlerCrash       // a TypeError on a missing question or a missing selection

  /** A new state and the service's reply. */
  datatype Out<R> = Out(st: State, reply: Result<R, GameError>)

  /** What `unirseAPartida` returns; exam sessions get no configuration. */
  datatype JoinInfo = JoinInfo(sessionId: string, mode: GameMode, config: Option<LiveConfig>)

  /** What `iniciarPartida` returns: 'Iniciada' or 'Examen iniciado'. */
  datatype StartMessage = Iniciada | ExamenIniciado

  /** The routed answer reply: `{ yaRespondida: true }` or `{ esCorrecta, puntosGanados }`. */
  datatype AnswerReply = AlreadyAnswered | Graded(isCorrect: bool, points: int)

  /** The body of POST /api/partidas/responder; an absent selection is `None`. */
  datatype Submission = Submission(
    sessionId: string,
    studentId: string,
    questionId: string,
    selected: Option<seq<int>>,
    seconds: int)

  /** Fallback question duration in seconds. */
  const DefaultLimit: int := 20

  /**
   * `configuracionEnvivo?.tiempoPorPreguntaSeg || preguntaActual.tiempoLimiteSeg || 20`.
   * The question schema has no `tiempoLimiteSeg`, so the middle term is
   * always absent.
   */
  function TimeLimit(cfg: LiveConfig): (t: int)
    ensures t != 0
    ensures cfg.secondsPerQuestion != 0 ==> t == cfg.secondsPerQuestion
    ensures cfg.secondsPerQuestion == 0 ==> t == DefaultLimit
  {
    if cfg.secondsPerQuestion != 0 then cfg.secondsPerQuestion else DefaultLimit
  }

  /** The `nueva_pregunta` payload of question `index` (0-based) of `total`. */
  function View(q: Question, limit: int, index: nat, total: nat): (v: QuestionView)
    ensures v.number == index + 1 && v.total == total && v.timeLimit == limit
    ensures |v.options| == |q.options|
    ensures forall k :: 0 <= k < |v.options| ==> v.options[k] == q.options[k].text
  {
    QuestionView(q.id, q.text, q.kind, limit, q.maxPoints, index + 1, total,
                 seq(|q.options|, k requires 0 <= k < |q.options| => q.options[k].text))
  }

  /** `Participacion.updateMany({ idPartida }, { $set: { estado: 'finalizada' } })`. */
  function MarkFinished(ps: seq<Participation>, id: string): (r: seq<Participation>)
    ensures |r| == |ps|
    ensures forall j :: 0 <= j < |ps| ==>
              r[j] == if ps[j].sessionId == id then ps[j].(state := Finalizada) else ps[j]
  {
    seq(|ps|, j requires 0 <= j < |ps| =>
      if ps[j].sessionId == id then ps[j].(state := Finalizada) else ps[j])
  }

  /**
   * `cerrarPartidaLogic`: release the token, mark the session and all its
   * participations finished, and broadcast the final ranking and report.
   * There is no phase guard and the pending pauses are left alone.
   */
  function Close(st: State, si: nat): (st': State)
    requires si < |st.sessions|
    ensures st.sessions[si].id !in st'.timers
    ensures st'.timers == st.timers - {st.sessions[si].id}
    ensures st'.sessions == st.sessions[si := st.sessions[si].(phase := Finalizada)]
    ensures |st'.participations| == |st.participations|
    ensures forall j :: 0 <= j < |st'.participations| && st'.participations[j].sessionId == st.sessions[si].id
              ==> st'.participations[j].state == Finalizada
    ensures forall j :: 0 <= j < |st'.participations| && st.participations[j].sessionId != st.sessions[si].id
              ==> st'.participations[j] == st.participations[j]
    ensures st'.pauses == st.pauses && st'.questions == st.questions
    ensures |st'.log| == |st.log| + 1 && st'.log[..|st.log|] == st.log
    ensures st'.log[|st.log|].room == st.sessions[si].pin
    ensures st'.log[|st.log|].event
            == GameOver(TopFive(st.sessions[si].players),
                        Report(QuizQuestions(st.questions, st.sessions[si].quizId),
                               OfSession(st'.participations, st.sessions[si].id)))
  {
    var s := st.sessions[si];
    var ps := MarkFinished(st.participations, s.id);
    var report := Report(QuizQuestions(st.questions, s.quizId), OfSession(ps, s.id));
    st.(timers := st.timers - {s.id},
        sessions := st.sessions[si := s.(phase := Finalizada)],
        participations := ps,
        log := st.log + [Emit(s.pin, GameOver(TopFive(s.players), report))])
  }

  /**
   * `gestionarCicloPregunta(partida, i)`: clear any armed token; past the
   * last question close the session; otherwise broadcast question `i`
   * without its correctness flags and arm exactly one token for it. The
   * write of `preguntaActual` names no schema path and is dropped, so the
   * stored session does not change.
   */
  function Advance(st: State, id: string, i: nat): (st': State)
    ensures FindSession(st.sessions, id).None? ==> st' == st.(timers := st.timers - {id})
    ensures st'.questions == st.questions && st'.pauses == st.pauses
    ensures |st'.sessions| == |st.sessions| && |st'.log| >= |st.log|
  {
    var st1 := st.(timers := st.timers - {id});
    match FindSession(st1.sessions, id)
    case None => st1
    case Some(si) =>
      var s := st1.sessions[si];
      var qs := QuizQuestions(st1.questions, s.quizId);
      if i >= |qs| then Close(st1, si)
      else
        st1.(timers := st1.timers[id := i],
             log := st1.log + [Emit(s.pin, QuestionStarted(View(qs[i], TimeLimit(s.live), i, |qs|)))])
  }

  /**
   * `concluirPregunta(id, k)`. The token is the guard: without it nothing
   * happens; with it, it is removed before anything else, so a second
   * conclusion finds nothing to do. When the session and question `k`
   * exist, the results are broadcast once and one pause is scheduled whose
   * advance targets `k + 1`. The guard looks only at the session, not at
   * which question the token was armed for.
   */
  function Conclude(st: State, id: string, k: nat): (st': State)
    ensures id !in st.timers ==> st' == st
    ensures id !in st'.timers
    ensures st'.timers == st.timers - {id}
    ensures st'.sessions == st.sessions && st'.participations == st.participations
    ensures st'.questions == st.questions
    ensures |st.pauses| <= |st'.pauses| <= |st.pauses| + 1 && st'.pauses[..|st.pauses|] == st.pauses
    ensures |st'.pauses| > |st.pauses| ==> st'.pauses[|st.pauses|] == PendingAdvance(id, k + 1)
    ensures |st'.log| - |st.log| == |st'.pauses| - |st.pauses| && st'.log[..|st.log|] == st.log
    ensures |st'.log| > |st.log| ==> st'.log[|st.log|].event.QuestionResults?
  {
    if id !in st.timers then st
    else
      var st1 := st.(timers := st.timers - {id});
      match FindSession(st1.sessions, id)
      case None => st1
      case Some(si) =>
        var s := st1.sessions[si];
        var qs := QuizQuestions(st1.questions, s.quizId);
        if k >= |qs| then st1
        else
          var q := qs[k];
          var parts := OfSession(st1.participations, id);
          var results := QuestionResults(Histogram(parts, q.id), FirstCorrectIndex(q.options), TopFive(s.players));
          st1.(log := st1.log + [Emit(s.pin, results)],
               pauses := st1.pauses + [PendingAdvance(id, k + 1)])
  }

  /** A timer callback fires: it concludes the question it was armed for. A cleared timer never fires. */
  function TimerFired(st: State, id: string): State {
    if id in st.timers then Conclude(st, id, st.timers[id]) else st
  }

  /** The `j`-th pending pause ends and runs its advance. */
  function PauseElapsed(st: State, j: nat): (st': State)
    ensures |st'.sessions| == |st.sessions|
  {
    if j < |st.pauses| then
      var p := st.pauses[j];
      Advance(st.(pauses := st.pauses[..j] + st.pauses[j + 1..]), p.sessionId, p.next)
    else st
  }

  /**
   * `unirseAPartida(pin, idAlumno, nombreAlumno)`: the first session with
   * that pin that is not finished; a student already on its roster changes
   * nothing; otherwise one roster entry and one participation are added
   * and the new count is broadcast. The count written to
   * `numParticipantes` names no schema path and is not stored.
   */
  function Join(st: State, pin: string, studentId: string, name: string): (o: Out<JoinInfo>)
    ensures FindOpenByPin(st.sessions, pin).None? <==> o.reply == Failure(SessionNotFound)
    ensures o.reply.Failure? ==> o.st == st
  {
    match FindOpenByPin(st.sessions, pin)
    case None => Out(st, Failure(SessionNotFound))
    case Some(si) =>
      var s := st.sessions[si];
      var info := JoinInfo(s.id, s.mode, if s.mode == EnVivo then Some(s.live) else None);
      if OnRoster(s.players, studentId) then Out(st, Success(info))
      else
        var players := s.players + [NewPlayer(studentId, name)];
        var st' := st.(sessions := st.sessions[si := s.(players := players)],
                       participations := st.participations + [NewParticipation(s.id, studentId, s.mode)],
                       log := st.log + [Emit(pin, PlayerJoined(name, studentId, |players|))]);
        Out(st', Success(info))
  }

  /**
   * `iniciarPartida(id)`: set the phase to `activa` whatever it was, and for
   * a live session launch the question cycle at question 0.
   */
  function Start(st: State, id: string): (o: Out<StartMessage>)
    ensures FindSession(st.sessions, id).None? <==> o.reply == Failure(SessionNotFound)
    ensures o.reply.Failure? ==> o.st == st
    ensures FindSession(st.sessions, id).Some? ==>
              var si := FindSession(st.sessions, id).value;
              var st1 := st.(sessions := st.sessions[si := st.sessions[si].(phase := Activa)]);
              if st.sessions[si].mode == EnVivo
              then o == Out(Advance(st1, id, 0), Success(Iniciada))
              else o == Out(st1, Success(ExamenIniciado))
  {
    match FindSession(st.sessions, id)
    case None => Out(st, Failure(SessionNotFound))
    case Some(si) =>
      var s := st.sessions[si];
      var st1 := st.(sessions := st.sessions[si := s.(phase := Activa)]);
      if s.mode == EnVivo then Out(Advance(st1, id, 0), Success(Iniciada))
      else Out(st1, Success(ExamenIniciado))
  }

  /** `finalizarPartida(id)`: close the session if it exists. */
  function Finalize(st: State, id: string): (o: Out<()>)
    ensures FindSession(st.sessions, id).None? <==> o.reply == Failure(SessionNotFound)
    ensures o.reply.Failure? ==> o.st == st
    ensures o.reply.Success? ==> id !in o.st.timers && o.st.pauses == st.pauses
    ensures FindSession(st.sessions, id).Some? ==>
              var si := FindSession(st.sessions, id).value;
              && o.st == Close(st, si)
              && o.st.sessions[si].phase == Finalizada
              && (forall j :: 0 <= j < |o.st.participations| && o.st.participations[j].sessionId == id
                    ==> o.st.participations[j].state == Finalizada)
  {
    match FindSession(st.sessions, id)
    case None => Out(st, Failure(SessionNotFound))
    case Some(si) => Out(Close(st, si), Success(()))
  }

  /** Whether a participation holds a record for the question: the filter of `countDocuments`. */
  predicate AnsweredIn(p: Participation, sessionId: string, questionId: string) {
    p.sessionId == sessionId && Answered(p, questionId)
  }

  /** The number of the session's participations that answered the question. */
  function AnsweredCount(ps: seq<Participation>, sessionId: string, questionId: string): nat {
    Count(ps, (p: Participation) => AnsweredIn(p, sessionId, questionId))
  }

  /** The ledger update of a graded answer: one new record and one counter step. */
  function Record(p: Participation, sub: Submission, ok: bool, points: int): (p': Participation)
    requires sub.selected.Some?
    ensures p'.answers == p.answers + [AnswerRecord(sub.questionId, sub.selected.value, ok, sub.seconds, points)]
    ensures p'.score == p.score + points
    ensures ok ==> p'.correct == p.correct + 1 && p'.wrong == p.wrong
    ensures !ok ==> p'.wrong == p.wrong + 1 && p'.correct == p.correct
    ensures p'.sessionId == p.sessionId && p'.studentId == p.studentId && p'.state == p.state && p'.mode == p.mode
  {
    p.(answers := p.answers + [AnswerRecord(sub.questionId, sub.selected.value, ok, sub.seconds, points)],
       score := p.score + points,
       correct := if ok then p.correct + 1 else p.correct,
       wrong := if ok then p.wrong else p.wrong + 1)
  }

  /** Copy a participation's total into the student's first roster entry, if any. */
  function MirrorScore(players: seq<Player>, studentId: string, score: int): (r: seq<Player>)
    ensures |r| == |players|
    ensures forall k :: 0 <= k < |r| ==> r[k].studentId == players[k].studentId && r[k].status == players[k].status
    ensures match FindPlayer(players, studentId)
            case None => r == players
            case Some(k) => r == players[k := players[k].(score := score)]
  {
    match FindPlayer(players, studentId)
    case None => players
    case Some(k) => players[k := players[k].(score := score)]
  }

  /**
   * The answer `enviarRespuesta` grades: points only when correct, with the
   * speed bonus over the session's time limit.
   */
  function RoutedPoints(s: Session, q: Question, selected: seq<int>, seconds: int): (r: int) {
    if RoutedCorrect(selected, q.options)
    then RoutedSpeedPoints(EffectiveMax(q.maxPoints), seconds, TimeLimit(s.live))
    else 0
  }

  /** `preguntas.findIndex(p => p._id.toString() === idPregunta)`: the question's place in the quiz. */
  function PositionOf(qs: seq<Question>, questionId: string): (r: Option<nat>)
    ensures r.Some? ==> r.value < |qs| && qs[r.value].id == questionId
    ensures r.Some? ==> forall j :: 0 <= j < r.value ==> qs[j].id != questionId
    ensures r.None? <==> forall j :: 0 <= j < |qs| ==> qs[j].id != questionId
  {
    FirstIndex(qs, (x: Question) => x.id == questionId)
  }

  /**
   * The writes of a graded answer: the record and totals on the
   * participation, and the total mirrored onto the roster.
   */
  function GradedWrite(st: State, si: nat, pi: nat, q: Question, sub: Submission): (st1: State)
    requires si < |st.sessions| && pi < |st.participations| && sub.selected.Some?
    ensures st1.timers == st.timers && st1.pauses == st.pauses && st1.log == st.log
    ensures st1.questions == st.questions && |st1.participations| == |st.participations|
    ensures |st1.sessions| == |st.sessions|
    ensures forall i :: 0 <= i < |st.sessions| ==>
              st1.sessions[i].id == st.sessions[i].id && st1.sessions[i].phase == st.sessions[i].phase
  {
    var s := st.sessions[si];
    var p := st.participations[pi];
    var ok := RoutedCorrect(sub.selected.value, q.options);
    var p' := Record(p, sub, ok, RoutedPoints(s, q, sub.selected.value, sub.seconds));
    st.(participations := st.participations[pi := p'],
        sessions := st.sessions[si := s.(players := MirrorScore(s.players, sub.studentId, p'.score))])
  }

  /**
   * The early-conclusion trigger: once the participations holding an
   * answer to the question are as many as the roster entries of `s` (read
   * before the write), the question is concluded at its place in the quiz.
   */
  function EarlyConclude(st1: State, s: Session, sub: Submission): (st2: State)
    ensures st2.sessions == st1.sessions && st2.participations == st1.participations
    ensures st2.questions == st1.questions
  {
    if AnsweredCount(st1.participations, sub.sessionId, sub.questionId) >= |s.players| then
      match PositionOf(QuizQuestions(st1.questions, s.quizId), sub.questionId)
      case None => st1
      case Some(k) => Conclude(st1, sub.sessionId, k)
    else st1
  }

  /**
   * The routed `enviarRespuesta`. Rejected unless the session exists and is
   * `activa` and the student has a participation; a question already in
   * the ledger is reported without any write. A graded answer is appended,
   * the totals and the roster score are updated, and when the number of
   * participations holding an answer to this question reaches the roster
   * length (abandoned players included) the question is concluded at its
   * position in the quiz.
   */
  function Answer(st: State, sub: Submission): (o: Out<AnswerReply>)
    ensures o.reply.Failure? ==> o.st == st
    ensures o.reply == Success(AlreadyAnswered) ==> o.st == st
    ensures o.reply.Success? ==> FindSession(st.sessions, sub.sessionId).Some?
    ensures o.reply.Success? ==> st.sessions[FindSession(st.sessions, sub.sessionId).value].phase == Activa
    ensures o.reply.Success? ==> FindParticipation(st.participations, sub.sessionId, sub.studentId).Some?
    ensures |o.st.participations| == |st.participations| && |o.st.sessions| == |st.sessions|
  {
    match FindSession(st.sessions, sub.sessionId)
    case None => Out(st, Failure(SessionNotActive))
    case Some(si) =>
      var s := st.sessions[si];
      if s.phase != Activa then Out(st, Failure(SessionNotActive))
      else match FindParticipation(st.participations, sub.sessionId, sub.studentId)
      case None => Out(st, Failure(NotParticipating))
      case Some(pi) =>
        var p := st.participations[pi];
        if Answered(p, sub.questionId) then Out(st, Success(AlreadyAnswered))
        else match FindQuestion(st.questions, sub.questionId)
        case None => Out(st, Failure(HandlerCrash))
        case Some(q) =>
          if sub.selected.None? then Out(st, Failure(HandlerCrash))
          else
            var ok := RoutedCorrect(sub.selected.value, q.options);
            var points := RoutedPoints(s, q, sub.selected.value, sub.seconds);
            var st2 := EarlyConclude(GradedWrite(st, si, pi, q, sub), s, sub);
            Out(st2, Success(Graded(ok, points)))
  }
}
