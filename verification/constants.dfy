/** The enumerations of Backend/src/utils/constants.js that the game logic reads. */
module Constants {

  /** ESTADOS_PARTIDA: espera, activa, finalizada, pausada. */
  datatype Phase = Espera | Activa | Finalizada | Pausada

  /**
   * ESTADO_USER: activo, inactivo. The disconnect handler writes
   * ESTADO_USER.ABANDONADO, which the table does not define, so the roster
   * entry ends up with no status at all; `Abandoned` names that state.
   */
  datatype PlayerStatus = Activo | Inactivo | Abandoned

  /** MODOS_JUEGO: en_vivo, examen. */
  datatype GameMode = EnVivo | Examen

  /** TIPO_LOBBY: publica, privada. */
  datatype LobbyAccess = Publica | Privada

  /** TIPOS_PREGUNTA: unica, multiple, V/F. */
  datatype QuestionKind = Unica | Multiple | VerdaderoFalso

  /** ESTADO_PREGUNTA: visible, oculta. */
  datatype QuestionVisibility = Visible | Oculta
}
