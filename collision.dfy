/** Integer AABB collision between the client's player and the static level
    (clientC/UI/Game/Logic/collision.c). All arithmetic is on C `int`; the
    operands are 16-bit coordinates and sizes, so no sum or difference of
    them leaves the `int` range and plain Dafny `int` is exact. The one
    exception is the floor test of `update_player_grounded`, whose
    `worldTop + worldHeight` adds two full `int` parameters: it is taken not
    to overflow, since signed overflow is undefined in C. Storing a result
    back into an `int16_t` field narrows it (`Wrap16`). A `MapView` whose
    pointer or data is null is `None`. */
module Collision {
  import opened Bytes
  import opened Wrappers
  import opened GamePlayer
  import StaticMap

  type CpRect = StaticMap.CpRect
  type StaticSnapshot = StaticMap.StaticSnapshot

  // ---------------------------------------------------------------------
  // Overlap

  function Max(a: int, b: int): int { if a < b then b else a }
  function Min(a: int, b: int): int { if a < b then a else b }

  /** `rects_overlap_i` (and its private copy `aabb_overlap_int` in
      player.c): the two rectangles overlap when, on each axis, each one
      starts strictly before the other ends. A rectangle that only touches
      the other's edge does not overlap it. */
  function RectsOverlap(aX: int, aY: int, aW: int, aH: int,
                        bX: int, bY: int, bW: int, bH: int): (r: bool)
    ensures r <==> aX < bX + bW && bX < aX + aW && aY < bY + bH && bY < aY + aH
  {
    var aRight, aBottom := aX + aW, aY + aH;
    var bRight, bBottom := bX + bW, bY + bH;
    if aRight <= bX then false
    else if aX >= bRight then false
    else if aBottom <= bY then false
    else if aY >= bBottom then false
    else true
  }

  /** The pixel `(px, py)` lies in the rectangle at `(x, y)` of size `w` by `h`. */
  predicate InRect(px: int, py: int, x: int, y: int, w: int, h: int)
  {
    x <= px < x + w && y <= py < y + h
  }

  /** For rectangles of positive size, overlapping means sharing a pixel. */
  lemma {:induction false} OverlapIffSharedPixel(aX: int, aY: int, aW: int, aH: int,
                                                 bX: int, bY: int, bW: int, bH: int)
    requires aW > 0 && aH > 0 && bW > 0 && bH > 0
    ensures RectsOverlap(aX, aY, aW, aH, bX, bY, bW, bH) <==>
            exists px, py :: InRect(px, py, aX, aY, aW, aH) && InRect(px, py, bX, bY, bW, bH)
  {
    if RectsOverlap(aX, aY, aW, aH, bX, bY, bW, bH) {
      assert InRect(Max(aX, bX), Max(aY, bY), aX, aY, aW, aH);
      assert InRect(Max(aX, bX), Max(aY, bY), bX, bY, bW, bH);
    }
  }

  lemma OverlapSymmetric(aX: int, aY: int, aW: int, aH: int,
                         bX: int, bY: int, bW: int, bH: int)
    ensures RectsOverlap(aX, aY, aW, aH, bX, bY, bW, bH) == RectsOverlap(bX, bY, bW, bH, aX, aY, aW, aH)
  {
  }

  // ---------------------------------------------------------------------
  // Rectangles of the player, a platform and the vine probe

  /** The `IntRect` of collision.c: edges and size of a rectangle. */
  datatype IntRect = IntRect(left: int, top: int, right: int, bottom: int, width: int, height: int)

  /** The right and bottom edges are the left and top edges plus the size. */
  predicate Consistent(r: IntRect)
  {
    r.right == r.left + r.width && r.bottom == r.top + r.height
  }

  function MakeRect(x: int, y: int, w: int, h: int): (r: IntRect)
    ensures Consistent(r) && r.left == x && r.top == y && r.width == w && r.height == h
  {
    IntRect(x, y, x + w, y + h, w, h)
  }

  /** `player_rect`. */
  function PlayerRect(s: PlayerState): IntRect
  {
    MakeRect(s.x, s.y, s.w, s.h)
  }

  /** `plat_rect`. */
  function PlatRect(p: CpRect): IntRect
  {
    MakeRect(p.x, p.y, p.w, p.h)
  }

  /** `rects_overlap_i` applied to two `IntRect`s, as the callers do. */
  predicate Overlap(a: IntRect, b: IntRect)
  {
    RectsOverlap(a.left, a.top, a.width, a.height, b.left, b.top, b.width, b.height)
  }

  /** `player_vine_rect`: the player's columns, with a probe half the
      player's height (at least 4) centred vertically. C `/` truncates toward
      zero. For a player at least 4 tall the probe lies inside the player and
      the space left below it is the space above it or one more; a shorter
      player's probe reaches below its feet. */
  function VineProbe(s: PlayerState): (r: IntRect)
    ensures Consistent(r) && r.left == s.x && r.width == s.w
    ensures r.height == Max(CDiv(s.h, 2), 4)
    ensures s.h >= 4 ==> s.y <= r.top && r.bottom <= s.y + s.h
    ensures s.h >= 4 ==> r.top - s.y <= s.y + s.h - r.bottom <= r.top - s.y + 1
    ensures s.h < 4 ==> r.bottom > s.y + s.h
  {
    var probeHeight := if CDiv(s.h, 2) < 4 then 4 else CDiv(s.h, 2);
    var offsetY := CDiv(s.h - probeHeight, 2);
    MakeRect(s.x, s.y + offsetY, s.w, probeHeight)
  }

  // ---------------------------------------------------------------------
  // Snapping against one platform

  /** `vertical_hit` as a value: the new `y` when the player, overlapping
      the platform and moving vertically, crossed its top face while falling
      (the player is put on top) or its bottom face while rising (the player
      is put just below); `None` otherwise. */
  function VerticalSnap(pr: IntRect, vy: int, h: int, prevTop: int, prevBottom: int, plat: CpRect): (r: Option<int>)
    ensures r.Some? ==> Overlap(pr, PlatRect(plat))
    ensures r.Some? && vy > 0 ==> r.value == plat.y - h && prevBottom <= plat.y
    ensures r.Some? && vy < 0 ==> r.value == plat.y + plat.h && prevTop >= plat.y + plat.h
    ensures r.Some? ==> vy != 0
  {
    var pl := PlatRect(plat);
    if !Overlap(pr, pl) then None
    else
      var horiz := pr.right > pl.left && pr.left < pl.right;
      if vy > 0 && horiz && prevBottom <= pl.top && pr.bottom >= pl.top then Some(pl.top - h)
      else if vy < 0 && horiz && prevTop >= pl.bottom && pr.top <= pl.bottom then Some(pl.bottom)
      else None
  }

  /** `horizontal_hit` as a value: the new `x` when the player, overlapping
      the platform, crossed its left face moving right or its right face
      moving left; `None` otherwise. */
  function HorizontalSnap(pr: IntRect, vx: int, w: int, prevLeft: int, prevRight: int, plat: CpRect): (r: Option<int>)
    ensures r.Some? ==> Overlap(pr, PlatRect(plat))
    ensures r.Some? && vx > 0 ==> r.value == plat.x - w && prevRight <= plat.x
    ensures r.Some? && vx < 0 ==> r.value == plat.x + plat.w && prevLeft >= plat.x + plat.w
    ensures r.Some? ==> vx != 0
  {
    var pl := PlatRect(plat);
    if !Overlap(pr, pl) then None
    else
      var vert := pr.bottom > pl.top && pr.top < pl.bottom;
      if vx > 0 && vert && prevRight <= pl.left && pr.right >= pl.left then Some(pl.left - w)
      else if vx < 0 && vert && prevLeft >= pl.right && pr.left <= pl.right then Some(pl.right)
      else None
  }

  /** The player record after a vertical snap: new `y`, `vy` zero. */
  function SnapY(s: PlayerState, snap: Option<int>): PlayerState
  {
    if snap.Some? then s.(y := Wrap16(snap.value), vy := 0) else s
  }

  /** The player record after a horizontal snap: new `x`, `vx` zero. */
  function SnapX(s: PlayerState, snap: Option<int>): PlayerState
  {
    if snap.Some? then s.(x := Wrap16(snap.value), vx := 0) else s
  }

  /** `vertical_hit`. */
  method VerticalHit(player: Player, pr: IntRect, prevTop: int, prevBottom: int, plat: CpRect)
      returns (hit: bool)
    modifies player
    ensures var snap := VerticalSnap(pr, old(player.state.vy), old(player.state.h), prevTop, prevBottom, plat);
      hit == snap.Some? && player.state == SnapY(old(player.state), snap)
  {
    var pl := PlatRect(plat);
    if !RectsOverlap(pr.left, pr.top, pr.width, pr.height, pl.left, pl.top, pl.width, pl.height) {
      return false;
    }
    var falling := player.state.vy > 0;
    var rising := player.state.vy < 0;
    var horiz := pr.right > pl.left && pr.left < pl.right;
    if falling && horiz && prevBottom <= pl.top && pr.bottom >= pl.top {
      player.state := player.state.(y := Wrap16(pl.top - player.state.h), vy := 0);
      return true;
    }
    if rising && horiz && prevTop >= pl.bottom && pr.top <= pl.bottom {
      player.state := player.state.(y := Wrap16(pl.bottom), vy := 0);
      return true;
    }
    return false;
  }

  /** `horizontal_hit`. */
  method HorizontalHit(player: Player, pr: IntRect, prevLeft: int, prevRight: int, plat: CpRect)
      returns (hit: bool)
    modifies player
    ensures var snap := HorizontalSnap(pr, old(player.state.vx), old(player.state.w), prevLeft, prevRight, plat);
      hit == snap.Some? && player.state == SnapX(old(player.state), snap)
  {
    var pl := PlatRect(plat);
    if !RectsOverlap(pr.left, pr.top, pr.width, pr.height, pl.left, pl.top, pl.width, pl.height) {
      return false;
    }
    var right := player.state.vx > 0;
    var left := player.state.vx < 0;
    var vert := pr.bottom > pl.top && pr.top < pl.bottom;
    if right && vert && prevRight <= pl.left && pr.right >= pl.left {
      player.state := player.state.(x := Wrap16(pl.left - player.state.w), vx := 0);
      return true;
    }
    if left && vert && prevLeft >= pl.right && pr.left <= pl.right {
      player.state := player.state.(x := Wrap16(pl.right), vx := 0);
      return true;
    }
    return false;
  }

  /** A player that lands on a platform ends up standing on it (bottom on
      the platform's top, columns overlapping) and no longer overlaps it,
      provided the new `y` fits an `int16_t`. */
  lemma {:induction false} LandingStandsOnPlatform(s: PlayerState, prevTop: int, prevBottom: int, plat: CpRect)
    requires s.vy > 0
    requires VerticalSnap(PlayerRect(s), s.vy, s.h, prevTop, prevBottom, plat).Some?
    requires -0x8000 <= plat.y - s.h < 0x8000
    ensures StandsOn(SnapY(s, VerticalSnap(PlayerRect(s), s.vy, s.h, prevTop, prevBottom, plat)), plat)
    ensures !Overlap(PlayerRect(SnapY(s, VerticalSnap(PlayerRect(s), s.vy, s.h, prevTop, prevBottom, plat))), PlatRect(plat))
  {
    AsI16Low16(plat.y - s.h);
  }

  /** A player that bumps a platform from below ends up with its top on the
      platform's bottom and no longer overlaps it, provided the new `y` fits. */
  lemma {:induction false} BumpClearsPlatform(s: PlayerState, prevTop: int, prevBottom: int, plat: CpRect)
    requires s.vy < 0
    requires VerticalSnap(PlayerRect(s), s.vy, s.h, prevTop, prevBottom, plat).Some?
    requires plat.y + plat.h < 0x8000
    ensures var t := SnapY(s, VerticalSnap(PlayerRect(s), s.vy, s.h, prevTop, prevBottom, plat));
      t.y == plat.y + plat.h && t.vy == 0 && !Overlap(PlayerRect(t), PlatRect(plat))
  {
    AsI16Low16(plat.y + plat.h);
  }

  /** A side hit leaves the player beside the wall it ran into, no longer
      overlapping it, provided the new `x` fits. */
  lemma {:induction false} SideHitClearsPlatform(s: PlayerState, prevLeft: int, prevRight: int, plat: CpRect)
    requires HorizontalSnap(PlayerRect(s), s.vx, s.w, prevLeft, prevRight, plat).Some?
    requires s.vx > 0 ==> -0x8000 <= plat.x - s.w
    requires s.vx < 0 ==> plat.x + plat.w < 0x8000
    ensures var t := SnapX(s, HorizontalSnap(PlayerRect(s), s.vx, s.w, prevLeft, prevRight, plat));
      t.vx == 0 && !Overlap(PlayerRect(t), PlatRect(plat))
  {
    var snap := HorizontalSnap(PlayerRect(s), s.vx, s.w, prevLeft, prevRight, plat);
    if s.vx > 0 {
      AsI16Low16(plat.x - s.w);
    } else {
      AsI16Low16(plat.x + plat.w);
    }
  }

  // ---------------------------------------------------------------------
  // Resolution against all platforms

  datatype CollisionPhase = Horizontal | Vertical

  /** The snap one platform gives in `phase`, for the player record `s` as it
      was when resolution started (the previous position is the current one
      minus the velocity). */
  function Probe(phase: CollisionPhase, s: PlayerState, plat: CpRect): Option<int>
  {
    var pr := PlayerRect(s);
    match phase
    case Vertical => VerticalSnap(pr, s.vy, s.h, pr.top - s.vy, pr.bottom - s.vy, plat)
    case Horizontal => HorizontalSnap(pr, s.vx, s.w, pr.left - s.vx, pr.right - s.vx, plat)
  }

  /** The snap of the first platform, in array order, that gives one. */
  function FirstHit(phase: CollisionPhase, s: PlayerState, plats: seq<CpRect>): (r: Option<int>)
    ensures r.None? <==> forall i :: 0 <= i < |plats| ==> Probe(phase, s, plats[i]).None?
    ensures r.Some? ==> exists k :: 0 <= k < |plats| && Probe(phase, s, plats[k]) == r &&
                         forall j :: 0 <= j < k ==> Probe(phase, s, plats[j]).None?
    decreases |plats|
  {
    if plats == [] then None
    else if Probe(phase, s, plats[0]).Some? then
      Probe(phase, s, plats[0])
    else
      var r := FirstHit(phase, s, plats[1..]);
      assert forall i :: 1 <= i < |plats| ==> plats[i] == plats[1..][i - 1];
      if r.Some? then
        var k :| 0 <= k < |plats[1..]| && Probe(phase, s, plats[1..][k]) == r &&
                 forall j :: 0 <= j < k ==> Probe(phase, s, plats[1..][j]).None?;
        assert Probe(phase, s, plats[k + 1]) == r;
        assert forall j :: 0 <= j < k + 1 ==> Probe(phase, s, plats[j]).None?;
        r
      else
        r
  }

  /** The first hit is the probe of platform `i` when every earlier platform
      gives none and platform `i` gives one. */
  lemma {:induction false} FirstHitAt(phase: CollisionPhase, s: PlayerState, plats: seq<CpRect>, i: nat)
    requires i < |plats|
    requires forall j :: 0 <= j < i ==> Probe(phase, s, plats[j]).None?
    requires Probe(phase, s, plats[i]).Some?
    ensures FirstHit(phase, s, plats) == Probe(phase, s, plats[i])
  {
    var r := FirstHit(phase, s, plats);
    var k :| 0 <= k < |plats| && Probe(phase, s, plats[k]) == r &&
             forall j :: 0 <= j < k ==> Probe(phase, s, plats[j]).None?;
  }

  /** The platforms a resolution or grounded pass looks at: none when the map
      or its platform array is missing. */
  function Platforms(view: Option<StaticSnapshot>): (plats: seq<CpRect>)
    requires view.Some? ==> StaticMap.ArraysMatchCounts(view.value)
    ensures view.Some? && view.value.plat.Some? ==> plats == view.value.plat.value && |plats| == view.value.nPlat
    ensures view.None? || view.value.plat.None? ==> plats == []
  {
    if view.None? || view.value.plat.None? then [] else view.value.plat.value
  }

  /** `resolve_player_platform_collisions` as a value: the player snapped by
      the first platform that gives a hit in `phase`, or unchanged. */
  function Resolve(s: PlayerState, view: Option<StaticSnapshot>, phase: CollisionPhase): PlayerState
    requires view.Some? ==> StaticMap.ArraysMatchCounts(view.value)
  {
    var hit := FirstHit(phase, s, Platforms(view));
    match phase
    case Vertical => SnapY(s, hit)
    case Horizontal => SnapX(s, hit)
  }

  /** The vertical phase changes only `y` and `vy`, and a snap zeroes `vy`. */
  lemma {:induction false} VerticalPhaseTouchesOnlyY(s: PlayerState, view: Option<StaticSnapshot>)
    requires view.Some? ==> StaticMap.ArraysMatchCounts(view.value)
    ensures var t := Resolve(s, view, Vertical);
      t == s.(y := t.y, vy := t.vy) && (t != s ==> t.vy == 0)
  {
    var hit := FirstHit(Vertical, s, Platforms(view));
    assert Resolve(s, view, Vertical) == SnapY(s, hit);
  }

  /** The horizontal phase changes only `x` and `vx`, and a snap zeroes `vx`. */
  lemma {:induction false} HorizontalPhaseTouchesOnlyX(s: PlayerState, view: Option<StaticSnapshot>)
    requires view.Some? ==> StaticMap.ArraysMatchCounts(view.value)
    ensures var t := Resolve(s, view, Horizontal);
      t == s.(x := t.x, vx := t.vx) && (t != s ==> t.vx == 0)
  {
    var hit := FirstHit(Horizontal, s, Platforms(view));
    assert Resolve(s, view, Horizontal) == SnapX(s, hit);
  }

  /** Without a map or platforms, resolution changes nothing. */
  lemma NoPlatformsNoChange(s: PlayerState, view: Option<StaticSnapshot>, phase: CollisionPhase)
    requires view.Some? ==> StaticMap.ArraysMatchCounts(view.value)
    requires view.None? || view.value.plat.None? || view.value.nPlat == 0
    ensures Resolve(s, view, phase) == s
  {
  }

  /** `resolve_player_platform_collisions`; no effect on a null player. */
  method ResolvePlayerPlatformCollisions(player: Player?, view: Option<StaticSnapshot>, phase: CollisionPhase)
    requires view.Some? ==> StaticMap.ArraysMatchCounts(view.value)
    modifies player
    ensures player != null ==> player.state == Resolve(old(player.state), view, phase)
  {
    if player == null || view.None? {
      return;
    }
    var st := view.value;
    if st.plat.None? || st.nPlat == 0 {
      return;
    }
    var plats := st.plat.value;
    if phase == Vertical {
      ResolveVertical(player, plats, st.nPlat);
    } else {
      ResolveHorizontal(player, plats, st.nPlat);
    }
  }

  /** The vertical branch of `resolve_player_platform_collisions`: the
      previous edges come from the current velocity, and the platforms are
      probed in order until one snaps the player. */
  method ResolveVertical(player: Player, plats: seq<CpRect>, n: u16)
    requires |plats| == n
    modifies player
    ensures player.state == SnapY(old(player.state), FirstHit(Vertical, old(player.state), plats))
  {
    ghost var s := player.state;
    var pr := PlayerRect(player.state);
    var prevTop := pr.top - player.state.vy;
    var prevBottom := pr.bottom - player.state.vy;
    var i := 0;
    while i < n
      invariant 0 <= i <= n
      invariant player.state == s
      invariant forall j :: 0 <= j < i ==> Probe(Vertical, s, plats[j]).None?
    {
      var hit := VerticalHit(player, pr, prevTop, prevBottom, plats[i]);
      if hit {
        FirstHitAt(Vertical, s, plats, i);
        return;
      }
      i := i + 1;
    }
  }

  /** The horizontal branch of `resolve_player_platform_collisions`. */
  method ResolveHorizontal(player: Player, plats: seq<CpRect>, n: u16)
    requires |plats| == n
    modifies player
    ensures player.state == SnapX(old(player.state), FirstHit(Horizontal, old(player.state), plats))
  {
    ghost var s := player.state;
    var pr := PlayerRect(player.state);
    var prevLeft := pr.left - player.state.vx;
    var prevRight := pr.right - player.state.vx;
    var i := 0;
    while i < n
      invariant 0 <= i <= n
      invariant player.state == s
      invariant forall j :: 0 <= j < i ==> Probe(Horizontal, s, plats[j]).None?
    {
      var hit := HorizontalHit(player, pr, prevLeft, prevRight, plats[i]);
      if hit {
        FirstHitAt(Horizontal, s, plats, i);
        return;
      }
      i := i + 1;
    }
  }


  // ---------------------------------------------------------------------
  // Grounded

  /** The player's bottom is on the platform's top and their columns overlap. */
  predicate StandsOn(s: PlayerState, plat: CpRect)
  {
    var pr, pl := PlayerRect(s), PlatRect(plat);
    pr.right > pl.left && pr.left < pl.right && pr.bottom == pl.top
  }

  /** What `update_player_grounded` stores: with a map, the player is on the
      world floor or stands on some platform. */
  predicate Grounded(s: PlayerState, view: Option<StaticSnapshot>, worldTop: int, worldHeight: int)
    requires view.Some? ==> StaticMap.ArraysMatchCounts(view.value)
  {
    view.Some? &&
    (s.y == worldTop + worldHeight - s.h ||
     exists i :: 0 <= i < |Platforms(view)| && StandsOn(s, Platforms(view)[i]))
  }

  /** `update_player_grounded`. The C function dereferences the player in the
      branch that tests it for null, so the player must not be null. */
  method UpdatePlayerGrounded(player: Player, view: Option<StaticSnapshot>, worldTop: int, worldHeight: int)
    requires view.Some? ==> StaticMap.ArraysMatchCounts(view.value)
    modifies player
    ensures player.state == old(player.state).(grounded := Grounded(old(player.state), view, worldTop, worldHeight))
  {
    if view.None? {
      player.state := player.state.(grounded := false);
      return;
    }
    var st := view.value;
    var floorY := worldTop + worldHeight - player.state.h;
    var onFloor := player.state.y == floorY;
    var onPlat := false;
    ghost var all := Platforms(view);
    if st.plat.Some? && st.nPlat > 0 {
      var plats := st.plat.value;
      var pr := PlayerRect(player.state);
      var i := 0;
      while i < st.nPlat
        invariant 0 <= i <= st.nPlat
        invariant !onPlat
        invariant forall j :: 0 <= j < i ==> !StandsOn(player.state, all[j])
      {
        var pl := PlatRect(plats[i]);
        var horiz := pr.right > pl.left && pr.left < pl.right;
        var sameTop := pr.bottom == pl.top;
        if horiz && sameTop {
          assert StandsOn(player.state, all[i]);
          onPlat := true;
          break;
        }
        i := i + 1;
      }
    }
    assert onPlat <==> exists j :: 0 <= j < |all| && StandsOn(player.state, all[j]);
    player.state := player.state.(grounded := onFloor || onPlat);
  }

  /** Landing on a platform in the vertical phase makes the next grounded
      update report the player grounded, whatever the floor position. */
  lemma {:induction false} LandingGrounds(s: PlayerState, view: Option<StaticSnapshot>, worldTop: int, worldHeight: int)
    requires view.Some? && StaticMap.ArraysMatchCounts(view.value)
    requires s.vy > 0
    requires FirstHit(Vertical, s, Platforms(view)).Some?
    requires -0x8000 <= FirstHit(Vertical, s, Platforms(view)).value < 0x8000
    ensures Grounded(Resolve(s, view, Vertical), view, worldTop, worldHeight)
  {
    var plats := Platforms(view);
    var k :| 0 <= k < |plats| && Probe(Vertical, s, plats[k]) == FirstHit(Vertical, s, plats);
    LandingOn(s, plats[k]);
    assert Resolve(s, view, Vertical) == SnapY(s, Probe(Vertical, s, plats[k]));
  }

  /** One platform's landing snap, as `Probe` gives it, leaves the player
      standing on that platform. */
  lemma {:induction false} LandingOn(s: PlayerState, plat: CpRect)
    requires s.vy > 0 && Probe(Vertical, s, plat).Some?
    requires -0x8000 <= Probe(Vertical, s, plat).value < 0x8000
    ensures StandsOn(SnapY(s, Probe(Vertical, s, plat)), plat)
  {
    var pr := PlayerRect(s);
    LandingStandsOnPlatform(s, pr.top - s.vy, pr.bottom - s.vy, plat);
  }

  // ---------------------------------------------------------------------
  // Vines

  /** `player_touching_vine`: false for a null player or a missing map or
      vine array; otherwise whether the player's vine probe overlaps some vine. */
  method PlayerTouchingVine(player: Player?, view: Option<StaticSnapshot>) returns (touching: bool)
    requires view.Some? ==> StaticMap.ArraysMatchCounts(view.value)
    ensures touching <==> (player != null && view.Some? && view.value.vines.Some? &&
      exists i :: 0 <= i < view.value.nVines && Overlap(VineProbe(player.state), PlatRect(view.value.vines.value[i])))
  {
    if player == null || view.None? {
      return false;
    }
    var st := view.value;
    if st.vines.None? || st.nVines == 0 {
      return false;
    }
    var vines := st.vines.value;
    var pr := VineProbe(player.state);
    var i := 0;
    while i < st.nVines
      invariant 0 <= i <= st.nVines
      invariant forall j :: 0 <= j < i ==> !Overlap(pr, PlatRect(vines[j]))
    {
      var vr := PlatRect(vines[i]);
      if RectsOverlap(pr.left, pr.top, pr.width, pr.height, vr.left, vr.top, vr.width, vr.height) {
        return true;
      }
      i := i + 1;
    }
    return false;
  }
}
