/**
 * The `disconnect` handler of Backend/src/sockets/socketManager.js: the
 * phase-dependent reconciliation of the roster when a player's socket
 * goes away.
 */
module SocketManager {

  import opened Wrappers
  import opened Seqs
  import opened Constants
  import opened PartidaModel
  import opened ParticipacionModel
  import opened Store

  /**
   * What `join_room` left on the socket: `esJugador`, `idPartida`,
   * `idAlumno` and the room (`sala`, the pin the client sent).
   */
  datatype SocketData = SocketData(isPlayer: bool, sessionId: string, studentId: string, room: string)

  /** The players not marked abandoned (`filter(j => j.estado !== ABANDONADO)`). */
  function ActiveCount(players: seq<Player>): (n: nat)
    ensures n <= |players|
  {
    Count(players, (p: Player) => p.status != Abandoned)
  }

  /** The roster without any entry for the student. */
  function Without(players: seq<Player>, studentId: string): (r: seq<Player>)
    ensures forall i :: 0 <= i < |r| ==> r[i].studentId != studentId && r[i] in players
    ensures forall i :: 0 <= i < |players| && players[i].studentId != studentId ==> players[i] in r
  {
    Filter(players, (p: Player) => p.studentId != studentId)
  }

  /** `Participacion.deleteOne({ idPartida, idAlumno })`: drop the first match, if any. */
  function DeleteFirst(ps: seq<Participation>, sessionId: string, studentId: string): (r: seq<Participation>)
    ensures FindParticipation(ps, sessionId, studentId).None? ==> r == ps
    ensures FindParticipation(ps, sessionId, studentId).Some? ==>
              var k := FindParticipation(ps, sessionId, studentId).value;
              r == ps[..k] + ps[k + 1..]
  {
    match FindParticipation(ps, sessionId, studentId)
    case None => ps
    case Some(k) => ps[..k] + ps[k + 1..]
  }

  /** The roster with the first entry of the student marked abandoned. */
  function MarkAbandoned(players: seq<Player>, studentId: string): (r: seq<Player>)
    ensures |r| == |players|
  {
    match FindPlayer(players, studentId)
    case None => players
    case Some(k) => players[k := players[k].(status := Abandoned)]
  }

  /**
   * The handler. Only sockets flagged as players with a session id are
   * reconciled; an unknown session, or a phase other than `activa` and
   * `espera`, changes nothing. The top-level `numParticipantes` write names
   * no schema path, so `stats` is never touched; the broadcast count is the
   * value computed in the handler.
   */
  function Disconnect(st: State, sock: SocketData): (st': State)
    ensures st'.questions == st.questions && st'.timers == st.timers && st'.pauses == st.pauses
    ensures |st'.sessions| == |st.sessions|
    ensures forall i :: 0 <= i < |st.sessions| ==>
              st'.sessions[i].stats == st.sessions[i].stats && st'.sessions[i].phase == st.sessions[i].phase
              && st'.sessions[i].id == st.sessions[i].id
  {
    if !sock.isPlayer || sock.sessionId == "" then st
    else
      match FindSession(st.sessions, sock.sessionId)
      case None => st
      case Some(si) =>
        var s := st.sessions[si];
        if s.phase == Activa then
          var players := MarkAbandoned(s.players, sock.studentId);
          st.(sessions := st.sessions[si := s.(players := players)],
              log := st.log + [Emit(sock.room, PlayerLeft(Game, sock.studentId, ActiveCount(players)))])
        else if s.phase == Espera then
          var players := Without(s.players, sock.studentId);
          st.(sessions := st.sessions[si := s.(players := players)],
              participations := DeleteFirst(st.participations, sock.sessionId, sock.studentId),
              log := st.log + [Emit(sock.room, PlayerLeft(Lobby, sock.studentId, |players|))])
        else st
  }

  /** Sockets that are not players, and sessions that are missing, finished or paused, are left alone. */
  lemma DisconnectIgnored(st: State, sock: SocketData)
    requires !sock.isPlayer || sock.sessionId == "" || FindSession(st.sessions, sock.sessionId).None?
             || st.sessions[FindSession(st.sessions, sock.sessionId).value].phase in {Finalizada, Pausada}
    ensures Disconnect(st, sock) == st
  {
  }

  /**
   * In `activa` the roster keeps its length and only the leaving player's
   * first entry changes, to abandoned; the broadcast count is the number of
   * entries not marked abandoned, and the participation is kept.
   */
  lemma {:induction false} DisconnectDuringGame(st: State, sock: SocketData, si: nat)
    requires sock.isPlayer && sock.sessionId != ""
    requires FindSession(st.sessions, sock.sessionId) == Some(si)
    requires st.sessions[si].phase == Activa
    ensures var st' := Disconnect(st, sock);
            var before := st.sessions[si].players;
            var after := st'.sessions[si].players;
            && |after| == |before|
            && (forall k :: 0 <= k < |before| && FindPlayer(before, sock.studentId) != Some(k) ==> after[k] == before[k])
            && (forall k :: FindPlayer(before, sock.studentId) == Some(k) ==>
                  after[k] == before[k].(status := Abandoned))
            && st'.participations == st.participations
            && st'.log == st.log + [Emit(sock.room, PlayerLeft(Game, sock.studentId, ActiveCount(after)))]
            && ((FindPlayer(before, sock.studentId).Some? && before[FindPlayer(before, sock.studentId).value].status != Abandoned)
                  ==> ActiveCount(after) + 1 == ActiveCount(before))
  {
    var before := st.sessions[si].players;
    match FindPlayer(before, sock.studentId)
    case None =>
    case Some(k) =>
      ActiveCountUpdate(before, k, before[k].(status := Abandoned));
  }

  /** Replacing one entry changes the active count by the difference of the two entries. */
  lemma {:induction false} ActiveCountUpdate(players: seq<Player>, k: nat, p: Player)
    requires k < |players|
    ensures ActiveCount(players[k := p]) + (if players[k].status != Abandoned then 1 else 0)
            == ActiveCount(players) + (if p.status != Abandoned then 1 else 0)
    decreases |players|
  {
    if k > 0 {
      ActiveCountUpdate(players[1..], k - 1, p);
      assert players[k := p][1..] == players[1..][k - 1 := p];
    } else {
      assert players[k := p][1..] == players[1..];
    }
  }

  /**
   * In `espera` every roster entry of the student goes, every other entry
   * stays, the participation of (session, student) is deleted, and the
   * lobby notice carries the new roster length.
   */
  lemma DisconnectInLobby(st: State, sock: SocketData, si: nat)
    requires sock.isPlayer && sock.sessionId != ""
    requires FindSession(st.sessions, sock.sessionId) == Some(si)
    requires st.sessions[si].phase == Espera
    ensures var st' := Disconnect(st, sock);
            var before := st.sessions[si].players;
            var after := st'.sessions[si].players;
            && !OnRoster(after, sock.studentId)
            && (forall k :: 0 <= k < |before| && before[k].studentId != sock.studentId ==> before[k] in after)
            && (forall k :: 0 <= k < |after| ==> after[k] in before)
            && (FindParticipation(st.participations, sock.sessionId, sock.studentId).Some? ==>
                  |st'.participations| + 1 == |st.participations|)
            && st'.log == st.log + [Emit(sock.room, PlayerLeft(Lobby, sock.studentId, |after|))]
  {
  }

  /**
   * `deleteOne` removes exactly one participation of the pair when there is
   * one, so a duplicate left by an earlier race would survive it.
   */
  lemma {:induction false} LobbyLeaveDeletesOne(ps: seq<Participation>, sessionId: string, studentId: string)
    requires FindParticipation(ps, sessionId, studentId).Some?
    ensures Count(DeleteFirst(ps, sessionId, studentId), (p: Participation) => p.sessionId == sessionId && p.studentId == studentId) + 1
            == Count(ps, (p: Participation) => p.sessionId == sessionId && p.studentId == studentId)
  {
    var k := FindParticipation(ps, sessionId, studentId).value;
    var pair := (p: Participation) => p.sessionId == sessionId && p.studentId == studentId;
    CountSplit(ps[..k], ps[k..], pair);
    assert ps == ps[..k] + ps[k..];
    CountSplit(ps[..k], ps[k + 1..], pair);
    assert ps[k..] == [ps[k]] + ps[k + 1..];
    assert ([ps[k]] + ps[k + 1..])[1..] == ps[k + 1..];
  }

  lemma {:induction false} CountSplit<T>(a: seq<T>, b: seq<T>, p: T -> bool)
    ensures Count(a + b, p) == Count(a, p) + Count(b, p)
    decreases |a|
  {
    if |a| > 0 {
      assert (a + b)[1..] == a[1..] + b;
      CountSplit(a[1..], b, p);
    } else {
      assert a + b == b;
    }
  }
}
