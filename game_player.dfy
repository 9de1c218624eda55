/** The client's own player record (clientC/UI/Game/Logic/player.c and
    player.h): position, size, velocity, vine and jump state, and the death
    flags. `isDead`, `justDied` and `justPickedFruit` are the fields the `.c`
    file assigns; player.h does not declare them. The vine side, the
    forced-fall x position and the two vine indices are not part of the
    model: no modelled operation reads or writes them. C `int` is `i32`. */
module GamePlayer {
  import opened Bytes

  /** Every field of the record, as a value. */
  datatype PlayerState = PlayerState(
    x: i16, y: i16, w: i16, h: i16, vx: i16, vy: i16,
    grounded: bool, onVine: bool, vineSideLock: bool,
    vineForcedFall: bool, betweenVines: bool,
    jumping: bool, jumpFramesLeft: i32,
    isDead: bool, justDied: bool, justPickedFruit: bool)

  /** `player_init`: position and size from the arguments, velocity zero,
      the grounded, jumping, vine, death and fruit flags cleared. The
      pending death event, the vine side, lock and forced-fall state and the
      vine indices are left as they were. */
  function Init(s: PlayerState, x: i16, y: i16, w: i16, h: i16): (r: PlayerState)
    ensures r.x == x && r.y == y && r.w == w && r.h == h && r.vx == 0 && r.vy == 0
    ensures !r.grounded && !r.jumping && !r.onVine && r.jumpFramesLeft == 0
    ensures !r.isDead && !r.justPickedFruit
    ensures r.justDied == s.justDied && r.betweenVines == s.betweenVines
    ensures r.vineSideLock == s.vineSideLock && r.vineForcedFall == s.vineForcedFall
  {
    s.(x := x, y := y, w := w, h := h, vx := 0, vy := 0,
       grounded := false, jumping := false, onVine := false,
       jumpFramesLeft := 0, isDead := false, justPickedFruit := false)
  }

  /** `player_mark_dead`: a live player becomes dead with a pending death
      event, stops, and lets go of any vine; a dead player is left alone. */
  function MarkDead(s: PlayerState): (r: PlayerState)
    ensures s.isDead ==> r == s
    ensures !s.isDead ==> r.isDead && r.justDied && r.vx == 0 && r.vy == 0
    ensures !s.isDead ==> !r.onVine && !r.betweenVines && !r.vineForcedFall && !r.vineSideLock
    ensures r.x == s.x && r.y == s.y && r.w == s.w && r.h == s.h
    ensures r.grounded == s.grounded && r.jumping == s.jumping && r.jumpFramesLeft == s.jumpFramesLeft
    ensures r.justPickedFruit == s.justPickedFruit
  {
    if s.isDead then s
    else s.(isDead := true, justDied := true, vx := 0, vy := 0,
            onVine := false, betweenVines := false,
            vineForcedFall := false, vineSideLock := false)
  }

  /** What `player_just_died` reports and the record it leaves. */
  datatype Poll = Poll(fired: bool, state: PlayerState)

  /** `player_just_died`: reports the pending death event and clears it. */
  function ConsumeDeath(s: PlayerState): (r: Poll)
    ensures r.fired == s.justDied
    ensures !r.state.justDied
    ensures r.state.(justDied := s.justDied) == s
  {
    if !s.justDied then Poll(false, s) else Poll(true, s.(justDied := false))
  }

  /** Marking a player dead twice is the same as marking it once. */
  lemma MarkDeadIdempotent(s: PlayerState)
    ensures MarkDead(MarkDead(s)) == MarkDead(s)
  {
  }

  /** A death is reported exactly once: the first poll after killing a live
      player fires, and neither a second poll nor a second kill followed by a
      poll fires again. */
  lemma {:induction false} DeathReportedOnce(s: PlayerState)
    requires !s.isDead
    ensures ConsumeDeath(MarkDead(s)).fired
    ensures !ConsumeDeath(ConsumeDeath(MarkDead(s)).state).fired
    ensures !ConsumeDeath(MarkDead(ConsumeDeath(MarkDead(s)).state)).fired
  {
    var dead := MarkDead(s);
    var polled := ConsumeDeath(dead).state;
    assert polled.isDead;
    assert MarkDead(polled) == polled;
  }

  /** A death event still pending when the player is re-initialised survives
      the re-initialisation and is reported afterwards, on a live player. */
  lemma {:induction false} InitKeepsPendingDeath(s: PlayerState, x: i16, y: i16, w: i16, h: i16)
    requires s.justDied
    ensures ConsumeDeath(Init(s, x, y, w, h)).fired
    ensures !ConsumeDeath(Init(s, x, y, w, h)).state.isDead
  {
    var r := Init(s, x, y, w, h);
    assert r.justDied;
  }

  /** Re-initialising with the same arguments changes nothing more. */
  lemma InitIdempotent(s: PlayerState, x: i16, y: i16, w: i16, h: i16)
    ensures Init(Init(s, x, y, w, h), x, y, w, h) == Init(s, x, y, w, h)
  {
  }

  /** The storage a `Player*` points to; a `null` pointer is a `null`
      reference. The struct's fields are held as one `PlayerState` value, and
      a C assignment to one or more fields is a record update of `state`. */
  class Player {
    var state: PlayerState

    constructor (s: PlayerState)
      ensures state == s
    {
      state := s;
    }
  }

  /** `player_init`; no effect on `null`. */
  method PlayerInit(p: Player?, x: i16, y: i16, w: i16, h: i16)
    modifies p
    ensures p != null ==> p.state == Init(old(p.state), x, y, w, h)
  {
    if p == null {
      return;
    }
    p.state := p.state.(x := x, y := y, w := w, h := h);
    p.state := p.state.(vx := 0, vy := 0);
    p.state := p.state.(grounded := false, jumping := false, onVine := false);
    p.state := p.state.(jumpFramesLeft := 0, isDead := false, justPickedFruit := false);
  }

  /** `player_is_dead`: false for `null`. */
  function IsDead(p: Player?): bool
    reads p
  {
    p != null && p.state.isDead
  }

  /** `player_mark_dead`; no effect on `null`. Afterwards every non-null
      player is dead. */
  method PlayerMarkDead(p: Player?)
    modifies p
    ensures p != null ==> p.state == MarkDead(old(p.state))
    ensures IsDead(p) <==> p != null
  {
    if p == null {
      return;
    }
    if p.state.isDead {
      return;
    }
    p.state := p.state.(isDead := true, justDied := true);
    p.state := p.state.(vx := 0, vy := 0);
    p.state := p.state.(onVine := false, betweenVines := false);
    p.state := p.state.(vineForcedFall := false, vineSideLock := false);
  }

  /** `player_just_died`: false for `null`; otherwise reports and consumes the
      pending death event. */
  method PlayerJustDied(p: Player?) returns (fired: bool)
    modifies p
    ensures p == null ==> !fired
    ensures p != null ==> Poll(fired, p.state) == ConsumeDeath(old(p.state))
  {
    if p == null {
      return false;
    }
    if !p.state.justDied {
      return false;
    }
    p.state := p.state.(justDied := false);
    return true;
  }
}
