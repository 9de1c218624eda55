/** The client's crocodile and fruit records (clientC/UI/Game/Logic/crocodile.c
    and fruit.c). Both C structs hold the same six fields, assigned the same
    way by their `*_init` and `*_spawn` functions; only the default variant
    differs. The `.c` bodies are modelled. `fruit.h`, which `fruit.c`
    includes, disagrees with it: it declares `Fruit` without `variant` and a
    three-argument `fruit_spawn`, and it does not define the
    `FRUIT_VARIANT_BANANA` that `fruit.c` uses. The model follows `fruit.c`,
    with the banana code the server fixes in `FruitVariant.BANANA`. */
module Actors {
  import opened Bytes

  /** Red crocodile; the code the server's `CrocVariant.RED` also uses. */
  const CROC_VARIANT_RED: byte := 1
  /** Banana; the code the server's `FruitVariant.BANANA` uses. */
  const FRUIT_VARIANT_BANANA: byte := 1

  /** The fields of a `Crocodile` or a `Fruit`, as a value. */
  datatype ActorState = ActorState(active: bool, variant: byte, x: i16, y: i16, w: i16, h: i16)

  /** `*_init`: inactive, the type's default variant, at the origin, with
      the given size. Nothing of the previous contents survives. */
  function Init(defaultVariant: byte, defaultW: i16, defaultH: i16): (r: ActorState)
    ensures !r.active && r.variant == defaultVariant
    ensures r.x == 0 && r.y == 0 && r.w == defaultW && r.h == defaultH
  {
    ActorState(false, defaultVariant, 0, 0, defaultW, defaultH)
  }

  /** `*_spawn`: active, with the given variant and position; the size is
      kept. */
  function Spawn(s: ActorState, variant: byte, x: i16, y: i16): (r: ActorState)
    ensures r.active && r.variant == variant && r.x == x && r.y == y
    ensures r.w == s.w && r.h == s.h
  {
    s.(variant := variant, x := x, y := y, active := true)
  }

  /** Spawning does not depend on anything but the size of the record it
      overwrites: not on whether it was active, nor on its variant or
      position. */
  lemma SpawnForgetsPrior(s: ActorState, t: ActorState, variant: byte, x: i16, y: i16)
    requires s.w == t.w && s.h == t.h
    ensures Spawn(s, variant, x, y) == Spawn(t, variant, x, y)
  {
  }

  /** A `Crocodile` struct; a `null` pointer is a `null` reference. */
  class Crocodile {
    var active: bool
    var variant: byte
    var x: i16
    var y: i16
    var w: i16
    var h: i16

    function State(): ActorState
      reads this
    {
      ActorState(active, variant, x, y, w, h)
    }

    constructor (s: ActorState)
      ensures State() == s
    {
      active, variant, x, y, w, h := s.active, s.variant, s.x, s.y, s.w, s.h;
    }
  }

  /** A `Fruit` struct, laid out as in fruit.c. */
  class Fruit {
    var active: bool
    var variant: byte
    var x: i16
    var y: i16
    var w: i16
    var h: i16

    function State(): ActorState
      reads this
    {
      ActorState(active, variant, x, y, w, h)
    }

    constructor (s: ActorState)
      ensures State() == s
    {
      active, variant, x, y, w, h := s.active, s.variant, s.x, s.y, s.w, s.h;
    }
  }

  /** `crocodile_init`; no effect on `null`. */
  method CrocodileInit(croc: Crocodile?, defaultW: i16, defaultH: i16)
    modifies croc
    ensures croc != null ==> croc.State() == Init(CROC_VARIANT_RED, defaultW, defaultH)
  {
    if croc == null {
      return;
    }
    croc.active := false;
    croc.variant := CROC_VARIANT_RED;
    croc.x := 0;
    croc.y := 0;
    croc.w := defaultW;
    croc.h := defaultH;
  }

  /** `crocodile_spawn`; no effect on `null`. */
  method CrocodileSpawn(croc: Crocodile?, variant: byte, x: i16, y: i16)
    modifies croc
    ensures croc != null ==> croc.State() == Spawn(old(croc.State()), variant, x, y)
  {
    if croc == null {
      return;
    }
    croc.variant := variant;
    croc.x := x;
    croc.y := y;
    croc.active := true;
  }

  /** `crocodile_update`: an empty body; the crocodile is unchanged. The
      time step `dt` is a float the body never reads and is not modelled. */
  method CrocodileUpdate(croc: Crocodile?)
    ensures croc != null ==> croc.State() == old(croc.State())
  {
  }

  /** `fruit_init`; no effect on `null`. */
  method FruitInit(fruit: Fruit?, defaultW: i16, defaultH: i16)
    modifies fruit
    ensures fruit != null ==> fruit.State() == Init(FRUIT_VARIANT_BANANA, defaultW, defaultH)
  {
    if fruit == null {
      return;
    }
    fruit.active := false;
    fruit.variant := FRUIT_VARIANT_BANANA;
    fruit.x := 0;
    fruit.y := 0;
    fruit.w := defaultW;
    fruit.h := defaultH;
  }

  /** `fruit_spawn`; no effect on `null`. */
  method FruitSpawn(fruit: Fruit?, variant: byte, x: i16, y: i16)
    modifies fruit
    ensures fruit != null ==> fruit.State() == Spawn(old(fruit.State()), variant, x, y)
  {
    if fruit == null {
      return;
    }
    fruit.variant := variant;
    fruit.x := x;
    fruit.y := y;
    fruit.active := true;
  }
}
