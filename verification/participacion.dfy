/**
 * The participation document (Backend/src/models/participacion.js): one
 * per (session, student), holding the running totals and the embedded
 * ledger of answer records.
 */
module ParticipacionModel {

  import opened Wrappers
  import opened Seqs
  import opened Constants

  /**
   * RespuestaSchema. `selected` is `opcionesMarcadas` (empty means no
   * answer); `seconds` is `tiempoRespuestaSeg`; `points` is `puntosObtenidos`.
   */
  datatype AnswerRecord = AnswerRecord(
    questionId: string,
    selected: seq<int>,
    isCorrect: bool,
    seconds: int,
    points: int)

  /** ParticipacionSchema; `state` is `estado`, `mode` is `tipoPartida`. */
  datatype Participation = Participation(
    sessionId: string,
    studentId: string,
    state: Phase,
    mode: GameMode,
    score: int,
    correct: int,
    wrong: int,
    unanswered: int,
    totalSeconds: int,
    answers: seq<AnswerRecord>)

  /** A record as the schema fills it when only the required fields are given. */
  function NewRecord(questionId: string, isCorrect: bool): (r: AnswerRecord)
    ensures r.questionId == questionId && r.isCorrect == isCorrect
    ensures r.selected == [] && r.seconds == 0 && r.points == 0
  {
    AnswerRecord(questionId, [], isCorrect, 0, 0)
  }

  /** The participation `unirseAPartida` creates: zero totals, empty ledger, state `activa`. */
  function NewParticipation(sessionId: string, studentId: string, mode: GameMode): (p: Participation)
    ensures p.sessionId == sessionId && p.studentId == studentId && p.mode == mode
    ensures p.state == Activa
    ensures p.score == 0 && p.correct == 0 && p.wrong == 0 && p.unanswered == 0
    ensures p.totalSeconds == 0 && p.answers == []
  {
    Participation(sessionId, studentId, Activa, mode, 0, 0, 0, 0, 0, [])
  }

  /** Whether the ledger holds a record for the question (`respuestas.some(...)`). */
  predicate Answered(p: Participation, questionId: string) {
    exists i :: 0 <= i < |p.answers| && p.answers[i].questionId == questionId
  }

  /** The first record for the question (`respuestas.find(...)`). */
  function FindRecord(answers: seq<AnswerRecord>, questionId: string): (r: Option<AnswerRecord>)
    ensures r.Some? ==> r.value in answers && r.value.questionId == questionId
    ensures r.None? <==> forall i :: 0 <= i < |answers| ==> answers[i].questionId != questionId
  {
    match FirstIndex(answers, (a: AnswerRecord) => a.questionId == questionId)
    case None => None
    case Some(k) => Some(answers[k])
  }

  /** Number of records in a ledger for one question. */
  function RecordsFor(answers: seq<AnswerRecord>, questionId: string): nat {
    Count(answers, (a: AnswerRecord) => a.questionId == questionId)
  }

  /** Index of the participation for (session, student) (`Participacion.findOne`). */
  function FindParticipation(ps: seq<Participation>, sessionId: string, studentId: string): (r: Option<nat>)
    ensures r.Some? ==> r.value < |ps| && ps[r.value].sessionId == sessionId && ps[r.value].studentId == studentId
    ensures r.None? <==> forall i :: 0 <= i < |ps| ==> !(ps[i].sessionId == sessionId && ps[i].studentId == studentId)
  {
    FirstIndex(ps, (p: Participation) => p.sessionId == sessionId && p.studentId == studentId)
  }

  /** The participations of one session (`Participacion.find({ idPartida })`). */
  function OfSession(ps: seq<Participation>, sessionId: string): (r: seq<Participation>)
    ensures forall i :: 0 <= i < |r| ==> r[i].sessionId == sessionId && r[i] in ps
    ensures forall i :: 0 <= i < |ps| && ps[i].sessionId == sessionId ==> ps[i] in r
  {
    Filter(ps, (p: Participation) => p.sessionId == sessionId)
  }

  /**
   * Each participation of the session occurs in the result as often as it
   * is stored, and no other participation occurs.
   */
  lemma OfSessionCounts(ps: seq<Participation>, sessionId: string)
    ensures forall p :: multiset(OfSession(ps, sessionId))[p] == if p.sessionId == sessionId then multiset(ps)[p] else 0
  {
    FilterMultiset(ps, (p: Participation) => p.sessionId == sessionId);
  }
}
