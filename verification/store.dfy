/**
 * The process state the game logic reads and writes: the three document
 * collections, the per-session timer table, the pending post-result
 * pauses, and the log of room broadcasts.
 */
module Store {

  import opened Wrappers
  import opened Seqs
  import opened Constants
  import opened PreguntaModel
  import opened PartidaModel
  import opened ParticipacionModel
  import opened Ranking

  /** The `modo` of a `usuario_desconectado` broadcast: 'lobby' or 'juego'. */
  datatype LeaveMode = Lobby | Game

  /** The `nueva_pregunta` payload: the options carry their text and nothing else. */
  datatype QuestionView = QuestionView(
    questionId: string,
    text: string,
    kind: QuestionKind,
    timeLimit: int,
    points: int,
    number: nat,
    total: nat,
    options: seq<string>)

  /** The events the core emits to a session's room. */
  datatype Broadcast =
    | PlayerJoined(name: string, studentId: string, total: nat)                  // nuevo_jugador
    | QuestionStarted(view: QuestionView)                                         // nueva_pregunta
    | QuestionResults(stats: seq<nat>, correct: int, ranking: seq<RankEntry>)     // tiempo_agotado
    | GameOver(ranking: seq<RankEntry>, report: seq<QuestionReport>)              // fin_partida
    | VoteRegistered                                                              // actualizacion_respuestas
    | PlayerLeft(mode: LeaveMode, studentId: string, total: nat)                  // usuario_desconectado

  /** `io.to(room).emit(...)`. */
  datatype Emit = Emit(room: string, event: Broadcast)

  /** A scheduled 8 s continuation: advance session `sessionId` to question `next`. */
  datatype PendingAdvance = PendingAdvance(sessionId: string, next: nat)

  /**
   * `timers` is the table `temporizadoresPartidas`: a session id is a key
   * exactly while its token is armed, and the value is the question index
   * the armed callback will conclude. `pauses` are the continuations
   * scheduled after each question's results; nothing ever cancels them.
   */
  datatype State = State(
    sessions: seq<Session>,
    participations: seq<Participation>,
    questions: seq<Question>,
    timers: map<string, nat>,
    pauses: seq<PendingAdvance>,
    log: seq<Emit>)

  /** `Partida.findById(id)`. */
  function FindSession(sessions: seq<Session>, id: string): (r: Option<nat>)
    ensures r.Some? ==> r.value < |sessions| && sessions[r.value].id == id
    ensures r.Some? ==> forall i :: 0 <= i < r.value ==> sessions[i].id != id
    ensures r.None? <==> forall i :: 0 <= i < |sessions| ==> sessions[i].id != id
  {
    FirstIndex(sessions, (s: Session) => s.id == id)
  }

  /** Lookup by id only sees the ids: updates that keep every id keep every lookup. */
  lemma FindSessionSameIds(a: seq<Session>, b: seq<Session>, id: string)
    requires |a| == |b| && forall i :: 0 <= i < |a| ==> a[i].id == b[i].id
    ensures FindSession(a, id) == FindSession(b, id)
  {
  }

  /** `Partida.findOne({ pin, estadoPartida: { $ne: 'finalizada' } })`. */
  function FindOpenByPin(sessions: seq<Session>, pin: string): (r: Option<nat>)
    ensures r.Some? ==> r.value < |sessions| && sessions[r.value].pin == pin
                        && sessions[r.value].phase != Finalizada
    ensures r.Some? ==> forall i :: 0 <= i < r.value ==> !(sessions[i].pin == pin && sessions[i].phase != Finalizada)
    ensures r.None? <==> forall i :: 0 <= i < |sessions| ==> !(sessions[i].pin == pin && sessions[i].phase != Finalizada)
  {
    FirstIndex(sessions, (s: Session) => s.pin == pin && s.phase != Finalizada)
  }

  /** `jugadores.findIndex(j => j.idAlumno === idAlumno)`. */
  function FindPlayer(players: seq<Player>, studentId: string): (r: Option<nat>)
    ensures r.Some? ==> r.value < |players| && players[r.value].studentId == studentId
    ensures r.None? <==> !OnRoster(players, studentId)
  {
    FirstIndex(players, (p: Player) => p.studentId == studentId)
  }

  /** The phase order: waiting, then playing, then finished. */
  function PhaseRank(p: Phase): nat {
    match p
    case Espera => 0
    case Activa => 1
    case Pausada => 1
    case Finalizada => 2
  }

  /** No session went back in the phase order, and none appeared or vanished. */
  ghost predicate PhasesForward(before: seq<Session>, after: seq<Session>) {
    && |after| == |before|
    && forall i :: 0 <= i < |before| ==>
         after[i].id == before[i].id && PhaseRank(before[i].phase) <= PhaseRank(after[i].phase)
  }

  lemma PhasesForwardTrans(a: seq<Session>, b: seq<Session>, c: seq<Session>)
    requires PhasesForward(a, b) && PhasesForward(b, c)
    ensures PhasesForward(a, c)
  {
  }

  /** Number of `tiempo_agotado` broadcasts in a log. */
  function ResultsCount(log: seq<Emit>): nat {
    Count(log, (e: Emit) => e.event.QuestionResults?)
  }
}
