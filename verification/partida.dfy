/**
 * The session document (Backend/src/models/partida.js): configuration,
 * phase, support counters and the embedded roster of players.
 */
module PartidaModel {

  import opened Wrappers
  import opened Constants

  /** JugadorSchema: one roster entry. */
  datatype Player = Player(
    studentId: string,
    name: string,
    status: PlayerStatus,
    correct: int,
    wrong: int,
    unanswered: int,
    score: int)

  /** The grading modes ConfiguracionEnVivoSchema accepts. */
  datatype Grading = VelocidadPrecision | SoloAcierto | Texto

  /** ConfiguracionEnVivoSchema; `secondsPerQuestion` is `tiempoPorPreguntaSeg`. */
  datatype LiveConfig = LiveConfig(
    secondsPerQuestion: int,
    showRanking: bool,
    shuffleQuestions: bool,
    shuffleAnswers: bool,
    grading: Grading,
    totalMinutes: Option<int>)

  /**
   * StatsSchema. The schema keeps the current question and the participant
   * count here and nowhere else.
   */
  datatype Stats = Stats(
    totalAnswers: int,
    globalCorrect: int,
    globalWrong: int,
    participants: int,
    currentQuestion: int)

  /** PartidaSchema (dates and the exam configuration are not modelled). */
  datatype Session = Session(
    id: string,
    quizId: string,
    teacherId: string,
    pin: string,
    mode: GameMode,
    phase: Phase,
    access: LobbyAccess,
    live: LiveConfig,
    stats: Stats,
    players: seq<Player>)

  /** `tiempoPorPreguntaSeg` when the configuration does not give one. */
  const DefaultSecondsPerQuestion: int := 20

  /** The roster entry `unirseAPartida` pushes: schema defaults for everything but the ids. */
  function NewPlayer(studentId: string, name: string): (p: Player)
    ensures p.studentId == studentId && p.name == name
    ensures p.status == Activo
    ensures p.correct == 0 && p.wrong == 0 && p.unanswered == 0 && p.score == 0
  {
    Player(studentId, name, Activo, 0, 0, 0, 0)
  }

  /** The live configuration an empty `{}` expands to. */
  function DefaultLiveConfig(): (c: LiveConfig)
    ensures c.secondsPerQuestion == DefaultSecondsPerQuestion
    ensures c.showRanking && c.shuffleQuestions && c.shuffleAnswers
    ensures c.grading == VelocidadPrecision && c.totalMinutes.None?
  {
    LiveConfig(DefaultSecondsPerQuestion, true, true, true, VelocidadPrecision, None)
  }

  /** The support counters an empty `{}` expands to. */
  function ZeroStats(): (s: Stats)
    ensures s.totalAnswers == 0 && s.globalCorrect == 0 && s.globalWrong == 0
    ensures s.participants == 0 && s.currentQuestion == 0
  {
    Stats(0, 0, 0, 0, 0)
  }

  /**
   * A freshly created session: the mode and the access default to
   * `en_vivo` and `publica`, the live configuration is always present, the
   * phase is `espera`, the counters are zero and the roster is empty.
   */
  function NewSession(id: string, quizId: string, teacherId: string, pin: string,
                      mode: Option<GameMode>, access: Option<LobbyAccess>,
                      live: Option<LiveConfig>): (s: Session)
    ensures s.phase == Espera && s.players == [] && s.stats == ZeroStats()
    ensures s.mode == mode.GetOr(EnVivo) && s.access == access.GetOr(Publica)
    ensures live.None? ==> s.live.secondsPerQuestion == DefaultSecondsPerQuestion
    ensures s.id == id && s.pin == pin && s.quizId == quizId
  {
    Session(id, quizId, teacherId, pin, mode.GetOr(EnVivo), Espera, access.GetOr(Publica),
            live.GetOr(DefaultLiveConfig()), ZeroStats(), [])
  }

  /** The student ids on a roster, in roster order. */
  function RosterIds(players: seq<Player>): (r: seq<string>)
    ensures |r| == |players|
    ensures forall i :: 0 <= i < |r| ==> r[i] == players[i].studentId
  {
    seq(|players|, i requires 0 <= i < |players| => players[i].studentId)
  }

  /** Whether a student is on the roster (`jugadores.some(j => j.idAlumno === idAlumno)`). */
  predicate OnRoster(players: seq<Player>, studentId: string) {
    exists i :: 0 <= i < |players| && players[i].studentId == studentId
  }
}
