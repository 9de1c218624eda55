/** The C clients' frame dispatcher: a 256-entry table from frame type to
    handler (`g_frameHandlers` in clientC/clientSpectator/clientSpectator.c,
    `g_handlers` in clientC/clientPlayer/clientPlayer.c). A C function
    pointer becomes the name of the handler it points to. */
module Dispatch {
  import opened Bytes
  import opened Wrappers
  import MsgType

  /** The handler functions the two clients register. */
  datatype Handler =
    | OnInitStatic
    | OnStateBundle
    | OnSpawnCroc
    | OnSpawnFruit
    | OnRemoveFruit
    | OnSpectatorState
    | OnRespawnDeath
    | OnRespawnWin
    | OnGameOver
    | OnLivesUpdate
    | OnScoreUpdate
    | OnCrocSpeedIncrease
    | OnGameRestart

  class Dispatcher {
    /** One entry per frame type; `None` is a null pointer. */
    const table: array<Option<Handler>>

    ghost predicate Valid()
      reads this
    {
      table.Length == 256
    }

    /** The zero-initialised static table. */
    constructor ()
      ensures Valid() && fresh(table)
      ensures forall t | 0 <= t < 256 :: table[t] == None
    {
      table := new Option<Handler>[256](_ => None);
    }

    /** The `for (i = 0; i < 256; i++) table[i] = NULL;` loop both clients
        run before registering. */
    method Clear()
      requires Valid()
      modifies table
      ensures forall t | 0 <= t < 256 :: table[t] == None
    {
      for i := 0 to 256
        invariant forall t | 0 <= t < i :: table[t] == None
      {
        table[i] := None;
      }
    }

    /** `disp_register`: installs `h` for `frameType` and changes no other entry. */
    method Register(frameType: byte, h: Handler)
      requires Valid()
      modifies table
      ensures table[frameType] == Some(h)
      ensures forall t | 0 <= t < 256 && t != frameType :: table[t] == old(table[t])
    {
      table[frameType] := Some(h);
    }

    /** The handler `disp_handle` calls for `frameType`, if any. */
    function Lookup(frameType: byte): Option<Handler>
      requires Valid()
      reads this, table
    {
      table[frameType]
    }
  }

  // ---------------------------------------------------------------------
  // The two clients' tables

  /** The spectator's table after set-up. */
  function SpectatorTable(t: byte): Option<Handler>
  {
    if t == MsgType.INIT_STATIC then Some(OnInitStatic)
    else if t == MsgType.STATE_BUNDLE then Some(OnStateBundle)
    else if t == MsgType.CROC_SPAWN then Some(OnSpawnCroc)
    else if t == MsgType.FRUIT_SPAWN then Some(OnSpawnFruit)
    else if t == MsgType.REMOVE_FRUIT then Some(OnRemoveFruit)
    else if t == MsgType.SPECTATOR_STATE then Some(OnSpectatorState)
    else if t == MsgType.PLAYER_RESPAWN then Some(OnRespawnDeath)
    else if t == MsgType.RESPAWN_VICTORY then Some(OnRespawnWin)
    else if t == MsgType.PLAYER_GAME_OVER then Some(OnGameOver)
    else if t == MsgType.LIVES_UPDATE then Some(OnLivesUpdate)
    else if t == MsgType.SCORE_UPDATE then Some(OnScoreUpdate)
    else if t == MsgType.CROC_SPEED_INCREASE then Some(OnCrocSpeedIncrease)
    else if t == MsgType.GAME_RESTART then Some(OnGameRestart)
    else None
  }

  /** The thirteen frame types the spectator registers. */
  const SPECTATOR_TYPES: set<byte> := {
    MsgType.INIT_STATIC, MsgType.STATE_BUNDLE, MsgType.CROC_SPAWN, MsgType.FRUIT_SPAWN,
    MsgType.REMOVE_FRUIT, MsgType.SPECTATOR_STATE, MsgType.PLAYER_RESPAWN, MsgType.RESPAWN_VICTORY,
    MsgType.PLAYER_GAME_OVER, MsgType.LIVES_UPDATE, MsgType.SCORE_UPDATE,
    MsgType.CROC_SPEED_INCREASE, MsgType.GAME_RESTART }

  /** Exactly the thirteen registered types have a handler. */
  lemma {:induction false} SpectatorTableCovers(t: byte)
    ensures SpectatorTable(t).Some? <==> t in SPECTATOR_TYPES
  {
  }

  /** The player's table after set-up. */
  function PlayerTable(t: byte): Option<Handler>
  {
    if t == MsgType.INIT_STATIC then Some(OnInitStatic)
    else if t == MsgType.STATE_BUNDLE then Some(OnStateBundle)
    else None
  }

  /** The handler registration in `run_spectator_client`. */
  method SetUpSpectator(d: Dispatcher)
    requires d.Valid()
    modifies d.table
    ensures forall t | 0 <= t < 256 :: d.table[t] == SpectatorTable(t)
  {
    d.Clear();
    RegisterStateHandlers(d);
    RegisterEventHandlers(d);
  }

  /** The first six registrations: map, bundle, entities and remote state. */
  method RegisterStateHandlers(d: Dispatcher)
    requires d.Valid()
    modifies d.table
    ensures forall t | 0 <= t < 256 ::
      d.table[t] == if t < MsgType.PLAYER_RESPAWN && SpectatorTable(t).Some? then SpectatorTable(t) else old(d.table[t])
  {
    d.Register(MsgType.INIT_STATIC, OnInitStatic);
    d.Register(MsgType.STATE_BUNDLE, OnStateBundle);
    d.Register(MsgType.CROC_SPAWN, OnSpawnCroc);
    d.Register(MsgType.FRUIT_SPAWN, OnSpawnFruit);
    d.Register(MsgType.REMOVE_FRUIT, OnRemoveFruit);
    d.Register(MsgType.SPECTATOR_STATE, OnSpectatorState);
  }

  /** The last seven registrations: game events and the HUD. */
  method RegisterEventHandlers(d: Dispatcher)
    requires d.Valid()
    modifies d.table
    ensures forall t | 0 <= t < 256 ::
      d.table[t] == if t >= MsgType.PLAYER_RESPAWN && SpectatorTable(t).Some? then SpectatorTable(t) else old(d.table[t])
  {
    d.Register(MsgType.PLAYER_RESPAWN, OnRespawnDeath);
    d.Register(MsgType.RESPAWN_VICTORY, OnRespawnWin);
    d.Register(MsgType.PLAYER_GAME_OVER, OnGameOver);
    d.Register(MsgType.LIVES_UPDATE, OnLivesUpdate);
    d.Register(MsgType.SCORE_UPDATE, OnScoreUpdate);
    d.Register(MsgType.CROC_SPEED_INCREASE, OnCrocSpeedIncrease);
    d.Register(MsgType.GAME_RESTART, OnGameRestart);
  }

  /** The handler registration in the player client's `main`. */
  method SetUpPlayer(d: Dispatcher)
    requires d.Valid()
    modifies d.table
    ensures forall t | 0 <= t < 256 :: d.table[t] == PlayerTable(t)
  {
    d.Clear();
    d.Register(MsgType.INIT_STATIC, OnInitStatic);
    d.Register(MsgType.STATE_BUNDLE, OnStateBundle);
  }
}
