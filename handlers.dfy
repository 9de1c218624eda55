/** The C clients' frame handlers (clientC/clientSpectator/clientSpectator.c;
    clientC/clientPlayer/clientPlayer.c carries identical `on_init_static`
    and `on_state_bundle`). Each handler decodes its payload and calls one
    game hook, or returns without a call when the payload is too short. The
    hooks are modelled by the `Effect` naming the call and its arguments;
    `INIT_STATIC` instead updates the static-map store. */
module Handlers {
  import opened Bytes
  import opened Wrappers
  import StaticMap
  import StateBundle
  import Dispatch

  /** The hook a handler calls. */
  datatype Effect =
    | NoCall
    | ApplyRemoteState(x: i16, y: i16, vx: i16, vy: i16, flags: byte)
    | SpawnCroc(variant: byte, x: i16, y: i16)
    | SpawnFruit(variant: byte, x: i16, y: i16)
    | RemoveFruitAt(x: i16, y: i16)
    | IncreaseCrocSpeed
    | RespawnDeath
    | RespawnWin
    | GameOverEvent
    | GameRestart
    | SetUiLives(lives: byte)
    | SetUiScore(score: u32)
    | ApplyCorrections(corrections: seq<StateBundle.Correction>)
    | StaticLoaded(ok: bool)

  /** The signed 16-bit big-endian value at `i`. */
  function I16At(p: seq<byte>, i: nat): i16
    requires i + 2 <= |p|
  {
    AsI16(Be16(p[i..]))
  }

  /** `on_spectator_state`: four signed 16-bit values and a flags byte. */
  function SpectatorState(p: seq<byte>): (e: Effect)
    ensures e.NoCall? <==> |p| < 9
    ensures e.ApplyRemoteState? ==> e.flags == p[8]
  {
    if |p| < 9 then NoCall
    else ApplyRemoteState(I16At(p, 0), I16At(p, 2), I16At(p, 4), I16At(p, 6), p[8])
  }

  /** A spawn position and variant, in either of the two accepted layouts. */
  datatype Spawn = Spawn(variant: byte, x: i16, y: i16)

  /** The shared decoding of `on_spawn_croc` and `on_spawn_fruit`: four
      bytes are the old layout without a variant (variant 0); five or more
      carry the variant first; anything shorter is ignored. */
  function SpawnOf(p: seq<byte>): (r: Option<Spawn>)
    ensures r.None? <==> |p| < 4
    ensures |p| == 4 ==> r == Some(Spawn(0, I16At(p, 0), I16At(p, 2)))
    ensures |p| >= 5 ==> r == Some(Spawn(p[0], I16At(p, 1), I16At(p, 3)))
  {
    if |p| == 4 then Some(Spawn(0, I16At(p, 0), I16At(p, 2)))
    else if |p| >= 5 then Some(Spawn(p[0], I16At(p, 1), I16At(p, 3)))
    else None
  }

  /** `on_remove_fruit`. */
  function RemoveFruit(p: seq<byte>): (e: Effect)
    ensures e.NoCall? <==> |p| < 4
  {
    if |p| < 4 then NoCall else RemoveFruitAt(I16At(p, 0), I16At(p, 2))
  }

  /** `on_lives_update`: the first byte. */
  function LivesUpdate(p: seq<byte>): (e: Effect)
    ensures e.NoCall? <==> |p| == 0
  {
    if |p| >= 1 then SetUiLives(p[0]) else NoCall
  }

  /** `on_score_update`: the unsigned big-endian first four bytes. */
  function ScoreUpdate(p: seq<byte>): (e: Effect)
    ensures e.NoCall? <==> |p| < 4
  {
    if |p| >= 4 then SetUiScore(Be32(p)) else NoCall
  }

  /** What handler `h` does with payload `p`. */
  function HandlerEffect(h: Dispatch.Handler, p: seq<byte>): Effect
  {
    match h
    case OnInitStatic => StaticLoaded(StaticMap.InitStatic(p).ok)
    case OnStateBundle => ApplyCorrections(StateBundle.Corrections(p))
    case OnSpawnCroc => if SpawnOf(p).Some? then var s := SpawnOf(p).value; SpawnCroc(s.variant, s.x, s.y) else NoCall
    case OnSpawnFruit => if SpawnOf(p).Some? then var s := SpawnOf(p).value; SpawnFruit(s.variant, s.x, s.y) else NoCall
    case OnRemoveFruit => RemoveFruit(p)
    case OnSpectatorState => SpectatorState(p)
    case OnRespawnDeath => RespawnDeath
    case OnRespawnWin => RespawnWin
    case OnGameOver => GameOverEvent
    case OnLivesUpdate => LivesUpdate(p)
    case OnScoreUpdate => ScoreUpdate(p)
    case OnCrocSpeedIncrease => IncreaseCrocSpeed
    case OnGameRestart => GameRestart
  }

  /** Calls handler `h` on `p`: only the `INIT_STATIC` handler touches the
      store, and it leaves there what the payload parse leaves. */
  method Run(h: Dispatch.Handler, p: seq<byte>, store: StaticMap.StaticStore) returns (e: Effect)
    modifies store
    ensures e == HandlerEffect(h, p)
    ensures h.OnInitStatic? ==> store.Snapshot() == StaticMap.InitStatic(p).stored
    ensures !h.OnInitStatic? ==> store.Snapshot() == old(store.Snapshot())
  {
    match h {
      case OnInitStatic =>
        var ok := store.RecvInitStaticPayload(p);
        e := StaticLoaded(ok);
      case OnStateBundle =>
        var cs := StateBundle.OnStateBundle(p);
        e := ApplyCorrections(cs);
      case _ =>
        e := HandlerEffect(h, p);
    }
  }

  /** `disp_handle`: runs the registered handler, if any; a type with no
      handler is a no-op. */
  method Handle(d: Dispatch.Dispatcher, frameType: byte, p: seq<byte>, store: StaticMap.StaticStore)
      returns (e: Effect)
    requires d.Valid()
    modifies store
    ensures d.Lookup(frameType).None? ==> e == NoCall && store.Snapshot() == old(store.Snapshot())
    ensures d.Lookup(frameType).Some? ==> e == HandlerEffect(d.Lookup(frameType).value, p)
    ensures d.Lookup(frameType) == Some(Dispatch.OnInitStatic) ==>
      store.Snapshot() == StaticMap.InitStatic(p).stored
    ensures d.Lookup(frameType) != Some(Dispatch.OnInitStatic) ==>
      store.Snapshot() == old(store.Snapshot())
  {
    var h := d.table[frameType];
    if h.None? {
      return NoCall;
    }
    e := Run(h.value, p, store);
  }

  // ---------------------------------------------------------------------
  // Properties of the handlers

  /** An empty payload, as the receive loop passes for a frame without one,
      only reaches the handlers that ignore their payload. */
  lemma {:induction false} EmptyPayload(h: Dispatch.Handler)
    ensures HandlerEffect(h, []) == match h
      case OnInitStatic => StaticLoaded(false)
      case OnRespawnDeath => RespawnDeath
      case OnRespawnWin => RespawnWin
      case OnGameOver => GameOverEvent
      case OnCrocSpeedIncrease => IncreaseCrocSpeed
      case OnGameRestart => GameRestart
      case OnStateBundle => ApplyCorrections([])
      case _ => NoCall
  {
    if h.OnInitStatic? {
      assert StaticMap.InitStatic([]).ok == false;
    }
    if h.OnStateBundle? {
      assert StateBundle.Records([]) == [];
    }
  }
}
