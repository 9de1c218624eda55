/** The server's player record (serverJava/Classes/Player/player.java):
    position and velocity, which the frame processor overwrites, and the
    lives, death flag and score that its mutators update. Every field is a
    Java `int` (or `boolean`), so `++`, `--` and `+=` wrap around. */
module ServerPlayer {
  import opened Bytes

  datatype Stats = Stats(x: i32, y: i32, vx: i32, vy: i32, lives: i32, isDead: bool, score: i32)

  /** The constructor: at `(x, y)`, at rest, three lives, alive, no score. */
  function New(x: i32, y: i32): (r: Stats)
    ensures r.x == x && r.y == y && r.vx == 0 && r.vy == 0
    ensures r.lives == 3 && !r.isDead && r.score == 0
  {
    Stats(x, y, 0, 0, 3, false, 0)
  }

  /** The lives and score mutators. */
  datatype Mutator =
    | DecreaseLives
    | IncreaseLives
    | IncreaseScore(points: i32)
    | SetLives(lives: i32)
    | SetScore(score: i32)

  /** The record after one mutator call. */
  function Apply(s: Stats, m: Mutator): (r: Stats)
    ensures r.x == s.x && r.y == s.y && r.vx == s.vx && r.vy == s.vy
    ensures m.SetLives? ==> r.lives == m.lives
    ensures m.SetScore? ==> r.score == m.score
    ensures m.IncreaseLives? ==> r.lives == Wrap32(s.lives + 1)
    ensures r.isDead <==> s.isDead || (m.DecreaseLives? && r.lives <= 0)
    ensures !(m.DecreaseLives? || m.IncreaseLives? || m.SetLives?) ==> r.lives == s.lives
    ensures !(m.IncreaseScore? || m.SetScore?) ==> r.score == s.score
  {
    match m
    case DecreaseLives =>
      var lives := Wrap32(s.lives - 1);
      s.(lives := lives, isDead := s.isDead || lives <= 0)
    case IncreaseLives => s.(lives := Wrap32(s.lives + 1))
    case IncreaseScore(p) => s.(score := Wrap32(s.score + p))
    case SetLives(l) => s.(lives := l)
    case SetScore(sc) => s.(score := sc)
  }

  /** `decreaseLives` takes exactly one life, with no floor at zero (only
      `int` wrap-around at the very bottom), and a player left with no
      lives is dead. */
  lemma {:induction false} DecreaseLivesTakesOne(s: Stats)
    requires s.lives > I32_MIN
    ensures Apply(s, DecreaseLives).lives == s.lives - 1
    ensures s.lives <= 1 ==> Apply(s, DecreaseLives).isDead
  {
    assert Wrap32(s.lives - 1) == s.lives - 1 by { AsI32Low32(s.lives - 1); }
  }

  /** `increaseScore` adds exactly its argument, negative ones included,
      while the sum stays in `int` range. */
  lemma {:induction false} IncreaseScoreAdds(s: Stats, points: i32)
    requires I32_MIN <= s.score + points <= I32_MAX
    ensures Apply(s, IncreaseScore(points)).score == s.score + points
  {
    AsI32Low32(s.score + points);
  }

  /** `increaseLives` adds exactly one life while that stays in `int`
      range. */
  lemma {:induction false} IncreaseLivesAddsOne(s: Stats)
    requires s.lives < I32_MAX
    ensures Apply(s, IncreaseLives).lives == s.lives + 1
  {
    AsI32Low32(s.lives + 1);
  }

  /** The record after a series of mutator calls. */
  function ApplyAll(s: Stats, ms: seq<Mutator>): Stats
    decreases |ms|
  {
    if ms == [] then s else ApplyAll(Apply(s, ms[0]), ms[1..])
  }

  /** No series of mutator calls brings a dead player back, and none moves
      the player. */
  lemma {:induction false} MutatorsKeepDeathAndPosition(s: Stats, ms: seq<Mutator>)
    ensures s.isDead ==> ApplyAll(s, ms).isDead
    ensures var r := ApplyAll(s, ms); r.x == s.x && r.y == s.y && r.vx == s.vx && r.vy == s.vy
    decreases |ms|
  {
    if ms != [] {
      MutatorsKeepDeathAndPosition(Apply(s, ms[0]), ms[1..]);
    }
  }

  /** Three `decreaseLives` calls kill a new player. */
  lemma {:induction false} ThreeLivesThenDead(x: i32, y: i32)
    ensures ApplyAll(New(x, y), [DecreaseLives, DecreaseLives, DecreaseLives]).isDead
    ensures !ApplyAll(New(x, y), [DecreaseLives, DecreaseLives]).isDead
  {
    var s0 := New(x, y);
    DecreaseLivesTakesOne(s0);
    var s1 := Apply(s0, DecreaseLives);
    DecreaseLivesTakesOne(s1);
    var s2 := Apply(s1, DecreaseLives);
    DecreaseLivesTakesOne(s2);
    var s3 := Apply(s2, DecreaseLives);
    assert ApplyAll(s0, [DecreaseLives, DecreaseLives, DecreaseLives]) == ApplyAll(s1, [DecreaseLives, DecreaseLives]);
    assert ApplyAll(s1, [DecreaseLives, DecreaseLives]) == ApplyAll(s2, [DecreaseLives]);
    assert ApplyAll(s2, [DecreaseLives]) == ApplyAll(s3, []);
    assert ApplyAll(s0, [DecreaseLives, DecreaseLives]) == ApplyAll(s1, [DecreaseLives]);
    assert ApplyAll(s1, [DecreaseLives]) == ApplyAll(s2, []);
  }

  /** A `player` object. */
  class Player {
    var x: i32
    var y: i32
    var vx: i32
    var vy: i32
    var lives: i32
    var isDead: bool
    var score: i32

    function State(): Stats
      reads this
    {
      Stats(x, y, vx, vy, lives, isDead, score)
    }

    /** `player(int x, int y)`. */
    constructor (x: i32, y: i32)
      ensures State() == New(x, y)
    {
      this.x := x;
      this.y := y;
      vx, vy := 0, 0;
      lives := 3;
      isDead := false;
      score := 0;
    }

    method DecreaseLives()
      modifies this
      ensures State() == Apply(old(State()), Mutator.DecreaseLives)
    {
      lives := Wrap32(lives - 1);
      if lives <= 0 {
        isDead := true;
      }
    }

    method IncreaseScore(points: i32)
      modifies this
      ensures State() == Apply(old(State()), Mutator.IncreaseScore(points))
    {
      score := Wrap32(score + points);
    }

    method IncreaseLives()
      modifies this
      ensures State() == Apply(old(State()), Mutator.IncreaseLives)
    {
      lives := Wrap32(lives + 1);
    }

    function GetLives(): (r: i32)
      reads this
      ensures r == State().lives
    {
      lives
    }

    function GetScore(): (r: i32)
      reads this
      ensures r == State().score
    {
      score
    }

    method SetLives(lives: i32)
      modifies this
      ensures State() == Apply(old(State()), Mutator.SetLives(lives))
    {
      this.lives := lives;
    }

    method SetScore(score: i32)
      modifies this
      ensures State() == Apply(old(State()), Mutator.SetScore(score))
    {
      this.score := score;
    }
  }
}
