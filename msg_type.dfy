/** The frame and TLV type codes (serverJava/Utils/MsgType.java, and
    clientC/UtilsC/msg_types.h for the codes the C clients define). Every
    code is below 0x80, so the signed Java `byte` and the wire byte are the
    same number. The C spectator names the codes from 0x30 on
    `CP_TYPE_SPAWN_CROC` and so on; their definitions are not part of this
    model, which uses the server's values for them. */
module MsgType {
  import opened Bytes

  const CLIENT_ACK: byte := 0x01
  const INIT_STATIC: byte := 0x02
  const STATE_BUNDLE: byte := 0x10
  const PLAYER_PROPOSED: byte := 0x20
  const CROC_SPAWN: byte := 0x30
  const FRUIT_SPAWN: byte := 0x40
  const REMOVE_FRUIT: byte := 0x41
  const SPECTATOR_STATE: byte := 0x50
  const SPECTATE_REQUEST: byte := 0x51
  const NOTIFY_DEATH_COLLISION: byte := 0x60
  const NOTIFY_VICTORY: byte := 0x61
  const NOTIFY_FRUIT_PICK: byte := 0x62
  const PLAYER_RESPAWN: byte := 0x70
  const PLAYER_GAME_OVER: byte := 0x71
  const RESPAWN_VICTORY: byte := 0x72
  const LIVES_UPDATE: byte := 0x73
  const SCORE_UPDATE: byte := 0x74
  const CROC_SPEED_INCREASE: byte := 0x75
  const REQUEST_RESTART: byte := 0x76
  const GAME_RESTART: byte := 0x77

  /** TLV types inside a `STATE_BUNDLE`. */
  const TLV_STATE_HEADER: byte := 0x10
  const TLV_PLAYER_CORR: byte := 0x11
  const TLV_ENTITIES_CORR: byte := 0x12
}
