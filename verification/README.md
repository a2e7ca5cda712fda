# EusaQuiz live-quiz core in Dafny

This project models the game logic of the EusaQuiz backend: a teacher
opens a session (`partida`) for a quiz (`cuestionario`), students join it
by pin, the server runs the questions one by one with a per-session timer,
grades answers with a speed bonus, broadcasts a four-bucket histogram and
a top-five leaderboard after each question, and closes the session with a
final report. Around that core sit the answer ledger of the participation
service, the socket disconnect handler that reconciles the roster, and
the middleware that extracts a bearer token.

The model is a sequential, purely functional state machine. A `State`
(module `Store`) holds the stored sessions, participations and questions
as sequences (a Mongo `findOne` is the first match), the in-memory timer
table `temporizadoresPartidas` as a map from session id to the index of
the question the armed callback will conclude, the pending 8-second
post-results pauses, and a log of socket broadcasts. Every service call,
timer callback, end of pause and disconnect is a function from state to
state, and module `Lifecycle` strings them into traces.

Modules:

- `Wrappers`, `Seqs`: `Option`/`Result`, counting, filtering, the stable
  descending insertion sort behind every leaderboard and the ascending
  sort of option indices.
- `Constants`, `PreguntaModel`, `PartidaModel`, `ParticipacionModel`: the
  enums and the three document shapes with their schema defaults.
- `Scoring`: `Math.round` as exact half-up rounding, the speed bonus
  `round(max * (1 - t / L / 2))`, and the two correctness checks.
- `Ranking`: `obtenerRanking`, the option histogram and the final report.
- `Store`: the state, lookups and the phase order.
- `PartidaService`, `PartidaProperties`: the routed orchestrator
  (`concluirPregunta`, `gestionarCicloPregunta`, `cerrarPartidaLogic`,
  `unirseAPartida`, `iniciarPartida`, `enviarRespuesta`,
  `finalizarPartida`) and its properties.
- `ParticipacionService`: the ledger `enviarRespuesta`,
  `obtenerMiProgreso`, `obtenerRankingPartida`.
- `SocketManager`: the `disconnect` handler.
- `AuthFromParent`: `extractTokenFromReq` and the middleware.
- `Lifecycle`: event traces, phase monotonicity, a concrete scenario.

Behaviour the model follows from the code where the design says otherwise:

- The timer guard is keyed by session, not by question, so a late
  conclusion of an older question consumes the current question's token.
- Closing is not guarded by phase and does not cancel the pending pause: a
  manual finalize during the pause is still followed by an advance, which
  arms a timer on a finished session.
- Starting is not guarded by phase, so a finished session can be started
  again; phase monotonicity is proved only for traces without restarts.
- Early conclusion compares the number of answered participations with
  the whole roster length, abandoned players included.
- `ESTADO_USER.ABANDONADO` is not defined, so the code stores `undefined`;
  the model uses an explicit `Abandoned` status.
- The routed correctness check accepts repeated marks (`[0, 0]` against
  correct `{0, 1}`); the ledger's sorted comparison rejects them.
- The routed time is not clamped below: a negative time pays more than the
  maximum.
- The writes of `preguntaActual` and `numParticipantes` at the top level of
  the session name no schema path, so the stored `stats` never change; the
  broadcast counts still carry the computed value.
- The question schema has no `tiempoLimiteSeg`, so the routed limit is the
  session's `tiempoPorPreguntaSeg` or 20 s and the ledger limit is always
  20 s.
- Starting a live session whose quiz has no question closes it at once:
  the cycle finds no question 0 and runs the close, while the reply is
  still 'Iniciada'.
- The session schema has no `configuracionProgramada`, so joining an exam
  session returns no configuration.
- An exam resubmission removes the earlier record but adds to the counters
  again.

## Model

| member | source | states |
|---|---|---|
| PreguntaModel.NewChoice | Backend/src/models/pregunta.js:18-22 | an option is created not correct, with its text |
| PreguntaModel.NewQuestion | Backend/src/models/pregunta.js:25-56 | a question defaults to 1000 points, kind `unica` and visible |
| PreguntaModel.CorrectIndices | Backend/src/services/participacionService.js:70-73 | the correct option indices, strictly ascending, each in range and flagged, every flagged option listed |
| PreguntaModel.FirstCorrectIndex | Backend/src/services/partidaService.js:66 | -1 exactly when no option is flagged, otherwise the first flagged option |
| PreguntaModel.QuizQuestions | Backend/src/services/partidaService.js:54 | the quiz's questions and only those, every one of them, in ascending `ordenPregunta` |
| PreguntaModel.QuizQuestionsPermutes | Backend/src/services/partidaService.js:54 | each question of the quiz appears as many times as it is stored, any other not at all |
| PreguntaModel.FindQuestion | Backend/src/services/partidaService.js:295 | a stored question with that id, or none exactly when no question has it |
| PartidaModel.NewPlayer | Backend/src/models/partida.js:48-74 | a roster entry starts `activo` with zero correct, wrong, unanswered and score |
| PartidaModel.DefaultLiveConfig | Backend/src/models/partida.js:77-90 | the live configuration defaults to 20 s per question, ranking and shuffles on, speed-precision grading |
| PartidaModel.ZeroStats | Backend/src/models/partida.js:102-108 | all support counters, including the current question and participant count, start at 0 |
| PartidaModel.NewSession | Backend/src/models/partida.js:131-159 | a new session is in `espera`, `en_vivo` unless told otherwise, public unless told otherwise, with an empty roster |
| ParticipacionModel.NewRecord | Backend/src/models/participacion.js:5-36 | an answer record defaults to no marks, 0 s and 0 points |
| ParticipacionModel.NewParticipation | Backend/src/models/participacion.js:54-81 | a participation starts `activa` with zero totals and an empty ledger |
| ParticipacionModel.FindParticipation | Backend/src/services/participacionService.js:47 | the first participation of (session, student), or none exactly when there is none |
| ParticipacionModel.OfSession | Backend/src/services/partidaService.js:57 | the participations of the session and only those |
| ParticipacionModel.OfSessionCounts | Backend/src/services/partidaService.js:57 | each participation of the session appears as many times as it is stored, any other not at all |
| Scoring.RoundHalfUp | Backend/src/services/partidaService.js:310 | the integer r with r <= n/d + 0.5 < r + 1, as `Math.round` on an exact quotient |
| Scoring.EffectiveMax | Backend/src/services/partidaService.js:307 | the question maximum, or 1000 when it is 0 |
| Scoring.SpeedPoints | Backend/src/services/partidaService.js:309-310 | the points are max * (1 - (t / L) / 2) rounded half up |
| Scoring.Clamp | Backend/src/services/participacionService.js:94 | the time is moved into [0, L] and left alone inside it |
| Scoring.SpeedPointsBounds | Backend/src/services/participacionService.js:93-96 | for a clamped time the points lie in [round(max / 2), max], max at 0 s and round(max / 2) at the limit |
| Scoring.SpeedPointsAntitone | Backend/src/services/partidaService.js:309-310 | for a nonnegative maximum a slower answer never earns more than a faster one |
| Scoring.RoundMonotone | Backend/src/services/partidaService.js:310 | rounding is monotone in the numerator |
| Scoring.HalfTimeScenario | Backend/src/services/partidaService.js:307-310 | half the time of 20 s on a 1000-point question earns 750 |
| Scoring.NegativeTimeOverpays | Backend/src/services/partidaService.js:309 | a time of -20 s of 20 s earns 1500 of 1000, since the routed formula only clamps above |
| Scoring.LedgerCorrectIffPermutation | Backend/src/services/participacionService.js:65-85 | the ledger verdict holds exactly when the marks are a rearrangement of the correct indices |
| Scoring.RoutedCorrectOnDistinct | Backend/src/services/partidaService.js:298-303 | for marks without repeats the routed verdict holds exactly when the marks and the correct indices are the same set |
| Scoring.VerdictsAgreeOnDistinct | Backend/src/services/partidaService.js:298-303 | without repeated marks the two services give the same verdict |
| Scoring.RepeatedMarkDivergence | Backend/src/services/partidaService.js:300-302 | `[0, 0]` against correct `{0, 1}` is correct for the routed check and wrong for the ledger |
| Seqs.SortDescSpec | Backend/src/services/partidaService.js:22 | the descending sort is ordered, a permutation, and keeps the input order within each key |
| Seqs.SortDescStable | Backend/src/services/partidaService.js:22 | the players of each score appear in the sorted roster in their roster order |
| Seqs.SortAscSpec | Backend/src/services/participacionService.js:67 | the ascending sort is ordered and a permutation |
| Seqs.SortedUnique | Backend/src/services/participacionService.js:76-85 | two ascending sequences with the same elements are equal, so sorted comparison is multiset comparison |
| Ranking.TopFive | Backend/src/services/partidaService.js:20-28 | at most five lines, non-increasing in points, each the name and score of a roster entry |
| Ranking.TopFiveSelectsHighest | Backend/src/services/partidaService.js:20-28 | the first line is the best score and any player left out scores no more than the last line |
| Ranking.TopFiveStable | Backend/src/services/partidaService.js:22 | players with equal scores appear in roster order, as a leading run of that score's players |
| Ranking.Histogram | Backend/src/services/partidaService.js:60-64 | exactly four buckets whose total is at most the number of participations |
| Ranking.HistogramCounts | Backend/src/services/partidaService.js:60-64 | bucket b counts the participations whose first mark on the question is b |
| Ranking.Report | Backend/src/services/partidaService.js:172-187 | one report line per quiz question, each with four buckets |
| Ranking.ReportLines | Backend/src/services/partidaService.js:172-187 | each report line counts, per bucket, the participations whose first mark on its question is that bucket, and its correct index is -1 exactly when no option is flagged, otherwise the first flagged one |
| Store.FindSession | Backend/src/services/partidaService.js:264 | the first session with the id, or none exactly when there is none |
| Store.FindOpenByPin | Backend/src/services/partidaService.js:232 | the first session with the pin that is not finished (no earlier session qualifies), or none exactly when there is none |
| PartidaService.TimeLimit | Backend/src/services/partidaService.js:118 | the session's seconds per question, or 20 when unset; never 0 |
| PartidaService.View | Backend/src/services/partidaService.js:120-132 | the question as broadcast: number index + 1 of the total, option texts only |
| PartidaService.Close | Backend/src/services/partidaService.js:151-199 | no token for the session, phase finished, all its participations finished, pauses untouched, one final broadcast carrying the top five of the roster and the report of the quiz's questions over the session's finished participations |
| PartidaService.Advance | Backend/src/services/partidaService.js:101-143 | an unknown session only loses its token; the stored documents and pauses never change otherwise than by closing |
| PartidaService.Conclude | Backend/src/services/partidaService.js:38-91 | without a token nothing happens; with one the token goes first, and at most one results broadcast and one pause targeting k + 1 follow |
| PartidaService.Join | Backend/src/services/partidaService.js:231-233 | fails exactly when no open session has the pin, and then changes nothing |
| PartidaService.Start | Backend/src/services/partidaService.js:263-276 | fails exactly when the session is unknown, and then changes nothing; otherwise the session becomes `activa` and a live session runs the question cycle from question 0 ('Iniciada') while an exam session does nothing more ('Examen iniciado') |
| PartidaService.Finalize | Backend/src/services/partidaService.js:375-380 | a known session is closed exactly as the cycle's close does: no token, phase finished, its participations finished, the pending pauses kept |
| PartidaService.Record | Backend/src/services/partidaService.js:314-316 | one record appended, the total rises by the points, exactly the matching counter rises |
| PartidaService.MirrorScore | Backend/src/services/partidaService.js:319-323 | only the student's first roster entry takes the participation total |
| PartidaService.Answer | Backend/src/services/partidaService.js:285-293 | any success needs an `activa` session and a participation; a failure or a repeat changes nothing |
| PartidaService.PositionOf | Backend/src/services/partidaService.js:334 | the first place in the quiz holding the question, or none exactly when the quiz does not hold it |
| PartidaService.GradedWrite | Backend/src/services/partidaService.js:314-323 | the writes of a graded answer touch no timer, pause, log entry or question, and keep every session's id and phase |
| PartidaProperties.ConcludeAtMostOnce | Backend/src/services/partidaService.js:42-48 | a second conclusion after the first changes nothing, so the race yields at most one results broadcast and one pause |
| PartidaProperties.ConcludeResults | Backend/src/services/partidaService.js:56-84 | the results carry each bucket's vote count, the first correct index and the leaderboard, and the pause targets k + 1 |
| PartidaProperties.StaleConcludeTakesCurrentToken | Backend/src/services/partidaService.js:42-48 | concluding an older question removes the current question's token, whose timer then does nothing |
| PartidaProperties.AdvancePastEndCloses | Backend/src/services/partidaService.js:112-116 | past the last question the session closes with no token and finished participations |
| PartidaProperties.AdvanceArmsOneToken | Backend/src/services/partidaService.js:104-143 | before the end exactly one token, for question i, replaces any other; question i goes out as number i + 1 with option texts and the time budget; the stored session is unchanged |
| PartidaProperties.ResultsLeadToNextQuestion | Backend/src/services/partidaService.js:81-84 | the advance after results arms question k + 1, or closes the session when there is none |
| PartidaProperties.CloseIdempotent | Backend/src/services/partidaService.js:151-165 | closing twice gives the same timers, sessions, participations and pauses as closing once |
| PartidaProperties.FinalizeDuringPauseStillAdvances | Backend/src/services/partidaService.js:81-84 | a finalize during the pause is followed by an advance that arms a token on the finished session |
| PartidaProperties.StartReopensFinished | Backend/src/services/partidaService.js:267-276 | starting a finished exam session makes it `activa` again |
| PartidaProperties.JoinEffect | Backend/src/services/partidaService.js:231-257 | a rejoin changes nothing; a new student gets one `activo` entry with zero totals, one participation and a count broadcast; exam sessions return no configuration |
| PartidaProperties.JoinFinishedFails | Backend/src/services/partidaService.js:232-233 | a pin whose sessions are all finished is not joinable |
| PartidaProperties.AnswerGradedEffect | Backend/src/services/partidaService.js:295-323 | a graded answer appends one record, moves exactly one counter, adds its points, earns the speed bonus when correct and 0 when wrong, and the roster mirrors the total |
| PartidaProperties.AnswerPointsInRange | Backend/src/services/partidaService.js:305-311 | for a nonnegative time a correct answer earns between round(max / 2) and max |
| PartidaProperties.EarlyConcludeNeedsWholeRoster | Backend/src/services/partidaService.js:326-339 | with fewer answered participations than roster entries the answer leaves the token and pauses alone |
| PartidaProperties.EarlyConcludeFires | Backend/src/services/partidaService.js:326-339 | once the answered participations reach the roster length and the question is question k of the quiz, the answer concludes question k: the token is gone and, if it was armed, the results go out and the pause to k + 1 is queued |
| PartidaProperties.WriteThenConclude | Backend/src/services/partidaService.js:326-339 | the trigger after the writes removes the token and, when armed, appends one results broadcast and the pause to k + 1 |
| PartidaProperties.ConcludeArmed | Backend/src/services/partidaService.js:42-84 | concluding an existing question k of an armed session appends exactly one broadcast and the pause to k + 1 |
| PartidaProperties.AnswerGradesFresh | Backend/src/services/partidaService.js:285-340 | an `activa` session, a participation without a record for the question, a known question and a selection always give a graded answer: the routed verdict, its points, the writes, then the trigger |
| PartidaProperties.AnswerGradedSplit | Backend/src/services/partidaService.js:314-339 | a graded answer had a known question and a selection, and its state is the writes followed by the trigger |
| PartidaProperties.AnswerOutsideQuizNeverConcludes | Backend/src/services/partidaService.js:334-337 | a question not in the session's quiz never concludes early: token and pauses stay |
| PartidaProperties.RoutedRepeat | Backend/src/services/partidaService.js:291-293 | in an `activa` session with a participation, the reply is `yaRespondida` with nothing written exactly when the ledger holds the question |
| PartidaProperties.RoutedRejections | Backend/src/services/partidaService.js:285-289 | an unknown or non-`activa` session gives 'Partida no activa', a missing participation 'No participas', and neither writes |
| PartidaProperties.StartLaunches | Backend/src/services/partidaService.js:263-276 | an exam start only makes the session `activa`; a live start of a non-empty quiz arms question 0 and announces it as number 1; a live start of an empty quiz closes the session |
| ParticipacionService.LedgerPoints | Backend/src/services/participacionService.js:88-101 | wrong answers earn 0, exam answers the maximum, live answers the speed bonus over the time clamped to [0, 20] |
| ParticipacionService.LedgerPointsRange | Backend/src/services/participacionService.js:88-101 | correct answers earn between round(max / 2) and max whatever the reported time |
| ParticipacionService.Pull | Backend/src/services/participacionService.js:114-118 | no record for the question remains and every other question keeps its records |
| ParticipacionService.SubmitRouting | Backend/src/services/participacionService.js:46-62 | with all ids present: no participation gives 404, a live repeat is reported (and only a live repeat), an unknown question after that gives 404, none of them writes |
| ParticipacionService.Submit | Backend/src/services/participacionService.js:37-62 | a missing id gives 400, errors are 400 or 404 and change nothing, a live repeat changes nothing, no session, timer or pause is touched |
| ParticipacionService.SubmitRegisteredEffect | Backend/src/services/participacionService.js:64-136 | one record with the sorted marks, verdict and points; correct exactly when the marks rearrange the correct indices; one counter moves; other participations untouched |
| ParticipacionService.OneRecordPerQuestion | Backend/src/services/participacionService.js:113-136 | after a registered answer the ledger holds exactly one record for the question and the same number for every other |
| ParticipacionService.ExamResubmissionInflatesCounters | Backend/src/services/participacionService.js:113-136 | an exam resubmission does not grow the ledger but does grow correct + wrong |
| ParticipacionService.DeliveryDoesNotAffectReply | Backend/src/services/participacionService.js:140-156 | a failed broadcast changes neither reply nor ledger; only live mode adds a content-free notice |
| ParticipacionService.AbsentSelectionIsEmpty | Backend/src/services/participacionService.js:65 | a selection that is not an array is graded as the empty selection |
| ParticipacionService.LedgerIgnoresPhase | Backend/src/services/participacionService.js:37-62 | finishing the session does not change any reply |
| ParticipacionService.Progress | Backend/src/services/participacionService.js:165-171 | 400 without ids, 404 exactly when there is no participation, otherwise the participation of that pair |
| ParticipacionService.RankingPartida | Backend/src/services/participacionService.js:179-188 | 400 exactly without an id; otherwise the session's participations by non-increasing total, at most the limit (10 by default, 0 for all) |
| ParticipacionService.RankingPartidaSelectsHighest | Backend/src/services/participacionService.js:182-185 | a participation cut off by the limit scores no more than the last row |
| ParticipacionService.RankingRowsFromSession | Backend/src/services/participacionService.js:182-185 | the rows are the leading rows of a rearrangement of the session's participations, so each participation gives at most one row |
| SocketManager.Disconnect | Backend/src/sockets/socketManager.js:30-82 | questions, timers, pauses, every phase and every stats block are unchanged |
| SocketManager.DisconnectIgnored | Backend/src/sockets/socketManager.js:33-38 | non-player sockets and missing, finished or paused sessions change nothing |
| SocketManager.DisconnectDuringGame | Backend/src/sockets/socketManager.js:41-56 | in `activa` the roster keeps its length, only the student's first entry becomes abandoned, the count is the non-abandoned entries and drops by one |
| SocketManager.DisconnectInLobby | Backend/src/sockets/socketManager.js:60-75 | in `espera` all the student's entries go, the others stay, one participation is deleted and the lobby notice carries the new length |
| SocketManager.LobbyLeaveDeletesOne | Backend/src/sockets/socketManager.js:67 | exactly one participation of the pair is deleted when there is one |
| AuthFromParent.Split | Backend/src/middlewares/authFromParent.js:21 | at least one piece and no piece contains the separator |
| AuthFromParent.SplitJoin | Backend/src/middlewares/authFromParent.js:21 | joining the pieces with the separator gives back the header |
| AuthFromParent.ParseBearerAccepts | Backend/src/middlewares/authFromParent.js:21-24 | a Bearer word in any letter case, one space and a token without spaces yield that token |
| AuthFromParent.ParseBearerOnlyBearer | Backend/src/middlewares/authFromParent.js:21-24 | every header that yields a token is a Bearer word, one space and that token |
| AuthFromParent.BearerFirst | Backend/src/middlewares/authFromParent.js:19-24 | a well-formed Bearer header wins over every other source |
| AuthFromParent.MalformedFallsThrough | Backend/src/middlewares/authFromParent.js:20-26 | a malformed header gives the same result as no header |
| AuthFromParent.FallbackOrder | Backend/src/middlewares/authFromParent.js:26-29 | `x-access-token`, then `query.token`, then `body.token`, else null |
| AuthFromParent.EmptyBearerStops | Backend/src/middlewares/authFromParent.js:21-24 | `Bearer ` yields the empty token, no fallback and no user |
| AuthFromParent.Middleware | Backend/src/middlewares/authFromParent.js:36-62 | the user is set exactly when a non-empty token decodes to an object, and is then that object |
| AuthFromParent.NoTokenNoUser | Backend/src/middlewares/authFromParent.js:38-42 | without a token the user stays unset |
| Lifecycle.StepForward | Backend/src/services/partidaService.js:151-158 | every event other than a restart keeps the sessions and moves each phase forward or not at all |
| Lifecycle.RunForward | Backend/src/services/partidaService.js:263-269 | over a trace with no restart no session's phase goes back |
| Lifecycle.FinishedStaysFinished | Backend/src/services/partidaService.js:263-269 | over such a trace a finished session stays finished |
| Lifecycle.AbandonedPlayerBlocksEarlyConclude | Backend/src/services/partidaService.js:331-333 | after one of two players leaves and the other answers, the question is not concluded early |
| Lifecycle.BothAnswerConcludesEarly | Backend/src/services/partidaService.js:326-339 | of two players, the first answer leaves the token; the second clears it, broadcasts the results and queues the pause to question 1 |

## Left out

- Persistence: MongoDB and Mongoose become sequences in one state; the
  strict-schema drop of unknown paths is modelled only where the core
  writes one (`preguntaActual`, `numParticipantes`).
- Stale documents: the pause continuation closes the session with the
  document read when the results were computed, and `obtenerRanking`
  sorts the roster in place; the model always reads the stored session.
- Mongoose applies the `activo` default again when it loads an entry whose
  status was stored as `undefined`; the model keeps `Abandoned`.
- Timers and clocks: `setTimeout`, the 8000 ms pause and all timestamps
  (`inicioEn`, `finEn`, `respondidaEn`) are explicit events without time.
- Socket transport: broadcasts are appended to a log; `join_room`
  bookkeeping is the socket's `SocketData` input; `io` is always present.
- Async interleaving: the duplicate check and the write of both
  `enviarRespuesta` functions are separated by awaits, so two concurrent
  submissions can both be recorded; the model runs each call to the end.
- Failures of database writes: the errors the handlers log and swallow
  (socketManager.js:78-80, the broadcast catch of the ledger) are not
  produced, except the ledger broadcast failure, which is a parameter.
- Mongo tie order: sessions' questions with equal `ordenPregunta` and
  ranking rows with equal totals come out in an unspecified order; the
  model uses the stable sort, one admissible order.
- `generarPinUnico` uses `Math.random`; pins are inputs.
- `crearPartida` and the CRUD functions are plain database wrappers.
- `jwt.decode` is a parameter; header values that are arrays rather than
  strings are not modelled.
- Floating point: points use exact rational rounding, so JavaScript's
  float results at exact .5 boundaries are not modelled, nor `NaN` from a
  missing `tiempoEmpleado` in the routed service.
- Negative Mongo limits in `obtenerRankingPartida` are not modelled; the
  limit is a natural number.
- PartidaService.Advance: its contract does not restate the broadcast;
  AdvanceArmsOneToken and AdvancePastEndCloses state it.
- Lifecycle.StepForward: proved only for events that do not start a
  session outside `espera`, because the code does not guard restarts.
