/** The apple-catching game session of GameCanvas: the state the component
    keeps, and one method per handler, interval body or effect that changes it.
    The intervals and effects are not scheduled here: each tick is a call. */
module GameCanvas {
  import opened JsMath

  const GameWidth: real := 420.0
  const GameHeight: real := 500.0
  const BasketWidth: real := 90.0
  /** An apple is resolved once its new height reaches this line. */
  const CatchLine: real := GameHeight - 60.0
  const TotalLives: int := 4

  const LeftKeys: seq<string> := ["ArrowLeft", "a", "A", "j", "J"]
  const RightKeys: seq<string> := ["ArrowRight", "d", "D", "l", "L"]

  const FullHeart: string := "\U{2764}\U{FE0F}"
  const EmptyHeart: string := "\U{1F5A4}"

  datatype Apple = Apple(x: real, y: real, caught: bool)

  // ---------------------------------------------------------------------
  // Difficulty

  datatype Tier = Tier(fallSpeed: int, spawnRate: int)

  predicate IsTier(t: Tier)
  {
    t == Tier(3, 1500) || t == Tier(5, 1000) || t == Tier(7, 700)
  }

  /** The difficulty effect's fixed thresholds on elapsed seconds. */
  function Difficulty(elapsed: int): (t: Tier)
    ensures IsTier(t)
    ensures t.fallSpeed > 0 && t.spawnRate > 0
  {
    if elapsed < 60 then Tier(3, 1500)
    else if elapsed < 120 then Tier(5, 1000)
    else Tier(7, 700)
  }

  /** Apples never fall slower, nor spawn less often, as time goes on. */
  lemma DifficultyMonotone(e1: int, e2: int)
    requires e1 <= e2
    ensures Difficulty(e1).fallSpeed <= Difficulty(e2).fallSpeed
    ensures Difficulty(e1).spawnRate >= Difficulty(e2).spawnRate
  {
  }

  /** The three tiers and where each one begins. */
  lemma DifficultyThresholds()
    ensures Difficulty(0) == Difficulty(59) == Tier(3, 1500)
    ensures Difficulty(60) == Difficulty(119) == Tier(5, 1000)
    ensures Difficulty(120) == Tier(7, 700)
  {
  }

  // ---------------------------------------------------------------------
  // Basket movement

  /** The basket lies wholly inside the play field of the given width. */
  predicate InBounds(x: real, displayWidth: real)
  {
    0.0 <= x <= displayWidth - BasketWidth
  }

  function Step(displayWidth: real): real
  {
    if displayWidth < 400.0 then 15.0 else 20.0
  }

  /** Where one key press moves the basket (the handler without its guard). */
  function KeyStep(x: real, displayWidth: real, key: string): (r: real)
    ensures key !in LeftKeys && key !in RightKeys ==> r == x
    ensures key in LeftKeys ==> r == (if x - Step(displayWidth) < 0.0 then 0.0 else x - Step(displayWidth))
    ensures key in RightKeys ==>
      r == (if x + Step(displayWidth) > displayWidth - BasketWidth then displayWidth - BasketWidth else x + Step(displayWidth))
    ensures InBounds(x, displayWidth) ==> InBounds(r, displayWidth)
    ensures InBounds(x, displayWidth) ==> -Step(displayWidth) <= r - x <= Step(displayWidth)
  {
    var step := Step(displayWidth);
    if key in LeftKeys then Max(0.0, x - step)
    else if key in RightKeys then Min(displayWidth - BasketWidth, x + step)
    else x
  }

  /** Where a tap moves the basket: centred under the tap, then clamped. */
  function TapTarget(tapX: real, left: real, displayWidth: real): (r: real)
    ensures displayWidth >= BasketWidth ==> InBounds(r, displayWidth)
    ensures InBounds(tapX - left - BasketWidth / 2.0, displayWidth) ==> r == tapX - left - BasketWidth / 2.0
    ensures displayWidth >= BasketWidth && tapX - left - BasketWidth / 2.0 < 0.0 ==> r == 0.0
    ensures tapX - left - BasketWidth / 2.0 > displayWidth - BasketWidth ==> r == displayWidth - BasketWidth
  {
    var newX := tapX - left - BasketWidth / 2.0;
    Min(Max(newX, 0.0), displayWidth - BasketWidth)
  }

  // ---------------------------------------------------------------------
  // Spawning

  /** The horizontal position of a new apple for a random draw `r` in [0, 1):
      spread over the field with one basket width of padding on each side. */
  function SpawnX(r: real, displayWidth: real): (x: real)
    requires 0.0 <= r < 1.0
    ensures displayWidth >= 2.0 * BasketWidth ==> BasketWidth <= x
    ensures displayWidth > 2.0 * BasketWidth ==> x < displayWidth - BasketWidth
    ensures displayWidth == 2.0 * BasketWidth ==> x == BasketWidth
  {
    var span := displayWidth - BasketWidth * 2.0;
    assert span > 0.0 ==> (1.0 - r) * span > 0.0;
    r * span + BasketWidth
  }

  lemma PositiveFactor(a: real, b: real)
    requires b > 0.0 && a * b > 0.0
    ensures a > 0.0
  {
  }

  /** Every position in the padded range is the spawn position of some draw. */
  lemma SpawnReachesEveryPosition(x: real, displayWidth: real) returns (r: real)
    requires displayWidth > 2.0 * BasketWidth
    requires BasketWidth <= x < displayWidth - BasketWidth
    ensures 0.0 <= r < 1.0 && SpawnX(r, displayWidth) == x
  {
    var span := displayWidth - 2.0 * BasketWidth;
    r := (x - BasketWidth) / span;
    assert r * span == x - BasketWidth;
    var rest := 1.0 - r;
    assert rest * span == span - r * span;
    assert x - BasketWidth < span;
    assert span - r * span > 0.0;
    PositiveFactor(rest, span);
  }

  // ---------------------------------------------------------------------
  // Falling and collision

  /** The catch test: strictly within half a basket width of the basket position. */
  predicate InBasket(x: real, basketX: real)
  {
    x > basketX - BasketWidth / 2.0 && x < basketX + BasketWidth / 2.0
  }

  /** What one physics tick makes of a list of apples: the apples it keeps,
      in order, and how many it caught and missed. */
  datatype Landing = Landing(kept: seq<Apple>, catches: nat, misses: nat)

  /** One pass of the physics tick over `apples`, apple by apple from the
      front, pushing onto the kept list as the source's forEach does. */
  function Fall(apples: seq<Apple>, fallSpeed: int, basketX: real): (r: Landing)
    ensures |r.kept| + r.misses == |apples|
    ensures r.catches <= |r.kept|
  {
    if apples == [] then Landing([], 0, 0)
    else
      var prior := Fall(apples[..|apples| - 1], fallSpeed, basketX);
      var a := apples[|apples| - 1];
      var newY := a.y + fallSpeed as real;
      if newY >= CatchLine then
        if InBasket(a.x, basketX) then
          Landing(prior.kept + [a.(y := newY, caught := true)], prior.catches + 1, prior.misses)
        else
          Landing(prior.kept, prior.catches, prior.misses + 1)
      else
        Landing(prior.kept + [a.(y := newY)], prior.catches, prior.misses)
  }

  /** The fate of a single apple. */
  lemma FallOne(a: Apple, fallSpeed: int, basketX: real)
    ensures var newY := a.y + fallSpeed as real;
      Fall([a], fallSpeed, basketX) ==
        if newY < CatchLine then Landing([Apple(a.x, newY, a.caught)], 0, 0)
        else if basketX - BasketWidth / 2.0 < a.x < basketX + BasketWidth / 2.0 then Landing([Apple(a.x, newY, true)], 1, 0)
        else Landing([], 0, 1)
  {
    assert [a][..0] == [];
  }

  /** The tick treats each apple on its own: the result on a list is the
      results on its parts, put together in order. */
  lemma {:induction false} FallAppend(s: seq<Apple>, t: seq<Apple>, fallSpeed: int, basketX: real)
    ensures var rs, rt := Fall(s, fallSpeed, basketX), Fall(t, fallSpeed, basketX);
      Fall(s + t, fallSpeed, basketX) == Landing(rs.kept + rt.kept, rs.catches + rt.catches, rs.misses + rt.misses)
  {
    if t == [] {
      assert s + t == s;
    } else {
      var t' := t[..|t| - 1];
      assert (s + t)[..|s + t| - 1] == s + t';
      assert (s + t)[|s + t| - 1] == t[|t| - 1];
      FallAppend(s, t', fallSpeed, basketX);
    }
  }

  /** Apples are never below the top of the field, and a caught apple is at
      or past the catch line. */
  predicate WellPlaced(apples: seq<Apple>)
  {
    forall i :: 0 <= i < |apples| ==> apples[i].y >= 0.0 && (apples[i].caught ==> apples[i].y >= CatchLine)
  }

  lemma {:induction false} FallKeepsWellPlaced(apples: seq<Apple>, fallSpeed: int, basketX: real)
    requires WellPlaced(apples) && fallSpeed > 0
    ensures WellPlaced(Fall(apples, fallSpeed, basketX).kept)
  {
    if apples != [] {
      FallKeepsWellPlaced(apples[..|apples| - 1], fallSpeed, basketX);
    }
  }

  /** While no apple reaches the catch line, a tick only moves every apple down. */
  lemma {:induction false} FallAboveLine(apples: seq<Apple>, fallSpeed: int, basketX: real)
    requires forall i :: 0 <= i < |apples| ==> apples[i].y + fallSpeed as real < CatchLine
    ensures var r := Fall(apples, fallSpeed, basketX);
      && r.catches == 0 && r.misses == 0 && |r.kept| == |apples|
      && forall i :: 0 <= i < |apples| ==> r.kept[i] == apples[i].(y := apples[i].y + fallSpeed as real)
  {
    if apples != [] {
      FallAboveLine(apples[..|apples| - 1], fallSpeed, basketX);
    }
  }

  /** An apple already caught is resolved again on the next tick: left under
      the basket it scores a second time. */
  lemma CaughtAppleScoresAgain()
    ensures var first := Fall([Apple(200.0, 437.0, false)], 3, 200.0);
      && first == Landing([Apple(200.0, 440.0, true)], 1, 0)
      && Fall(first.kept, 3, 200.0).catches == 1
  {
    FallOne(Apple(200.0, 437.0, false), 3, 200.0);
    FallOne(Apple(200.0, 440.0, true), 3, 200.0);
  }

  /** The caught flag is never read: an apple caught on one tick whose basket
      has moved away by the next tick is dropped as a miss. */
  lemma CaughtAppleMissedLater()
    ensures var first := Fall([Apple(200.0, 437.0, false)], 3, 200.0);
      && first == Landing([Apple(200.0, 440.0, true)], 1, 0)
      && Fall(first.kept, 3, 300.0) == Landing([], 0, 1)
  {
    FallOne(Apple(200.0, 437.0, false), 3, 200.0);
    FallOne(Apple(200.0, 440.0, true), 3, 300.0);
  }

  /** The catch boundary with the basket at 200: 200 is caught, 100 is missed,
      and so is 155, exactly half a basket width away. */
  lemma CatchBoundary()
    ensures Fall([Apple(200.0, 437.0, false)], 3, 200.0).catches == 1
    ensures Fall([Apple(100.0, 437.0, false)], 3, 200.0).misses == 1
    ensures Fall([Apple(155.0, 437.0, false)], 3, 200.0).misses == 1
    ensures Fall([Apple(156.0, 437.0, false)], 3, 200.0).catches == 1
  {
    FallOne(Apple(200.0, 437.0, false), 3, 200.0);
    FallOne(Apple(100.0, 437.0, false), 3, 200.0);
    FallOne(Apple(155.0, 437.0, false), 3, 200.0);
    FallOne(Apple(156.0, 437.0, false), 3, 200.0);
  }

  /** How many times the lives updater reaches zero when `misses` misses are
      applied one after another to `lives` (lives >= 1). */
  function GameOverCalls(lives: int, misses: nat): nat
  {
    if misses >= lives then misses - lives + 1 else 0
  }

  function Repeat(v: int, n: nat): (s: seq<int>)
    ensures |s| == n && forall i :: 0 <= i < n ==> s[i] == v
  {
    seq(n, _ => v)
  }

  lemma RepeatOneMore(v: int, n: nat)
    ensures Repeat(v, n + 1) == Repeat(v, n) + [v]
  {
  }

  /** The apples updater of the fall interval: one pass over `prev` that
      pushes the apples it keeps onto a fresh list and counts the catches
      (each a queued score increment) and the misses (each a queued lives
      updater). */
  method FallPass(prev: seq<Apple>, fallSpeed: int, basketX: real)
    returns (newApples: seq<Apple>, catches: nat, misses: nat)
    ensures Landing(newApples, catches, misses) == Fall(prev, fallSpeed, basketX)
  {
    newApples, catches, misses := [], 0, 0;
    for i := 0 to |prev|
      invariant Fall(prev[..i], fallSpeed, basketX) == Landing(newApples, catches, misses)
    {
      var a := prev[i];
      assert prev[..i + 1][..i] == prev[..i];
      var newY := a.y + fallSpeed as real;
      if newY >= CatchLine {
        var caught := a.x > basketX - BasketWidth / 2.0 && a.x < basketX + BasketWidth / 2.0;
        if caught {
          newApples := newApples + [a.(y := newY, caught := true)];
          catches := catches + 1;
        } else {
          misses := misses + 1;
        }
      } else {
        newApples := newApples + [a.(y := newY)];
      }
    }
    assert prev[..|prev|] == prev;
  }

  // ---------------------------------------------------------------------
  // Hearts and the caught-apple filter

  /** The four heart slots of the indicator. */
  function HeartSlots(lives: int): (slots: seq<string>)
    ensures |slots| == TotalLives
    ensures forall i :: 0 <= i < |slots| ==> (slots[i] == FullHeart <==> i < lives)
    ensures forall i :: 0 <= i < |slots| ==> (slots[i] == EmptyHeart <==> i >= lives)
  {
    seq(TotalLives, i => if i < lives then FullHeart else EmptyHeart)
  }

  function FilledCount(slots: seq<string>): nat
  {
    if slots == [] then 0
    else FilledCount(slots[..|slots| - 1]) + (if slots[|slots| - 1] == FullHeart then 1 else 0)
  }

  function Clamp(v: int, lo: int, hi: int): int
  {
    if v < lo then lo else if v > hi then hi else v
  }

  /** Filled hearts all come before empty ones. */
  lemma FilledHeartsFirst(lives: int, i: int, j: int)
    requires 0 <= i < j < TotalLives
    ensures HeartSlots(lives)[j] == FullHeart ==> HeartSlots(lives)[i] == FullHeart
  {
  }

  lemma {:induction false} FilledPrefix(lives: int, k: nat)
    requires k <= TotalLives
    ensures FilledCount(HeartSlots(lives)[..k]) == Clamp(lives, 0, k)
  {
    if k > 0 {
      var slots := HeartSlots(lives);
      assert slots[..k][..k - 1] == slots[..k - 1];
      FilledPrefix(lives, k - 1);
    }
  }

  /** The indicator shows as many filled hearts as there are lives, up to four. */
  lemma FilledHeartsCount(lives: int)
    ensures FilledCount(HeartSlots(lives)) == Clamp(lives, 0, TotalLives)
  {
    FilledPrefix(lives, TotalLives);
    assert HeartSlots(lives)[..TotalLives] == HeartSlots(lives);
  }

  /** JavaScript's `parts.join(sep)`. */
  function Join(parts: seq<string>, sep: string): string
  {
    if parts == [] then ""
    else if |parts| == 1 then parts[0]
    else Join(parts[..|parts| - 1], sep) + sep + parts[|parts| - 1]
  }

  /** `s.filter((_, idx) => idx !== i)`: every element whose index is not `i`. */
  function Without<T>(s: seq<T>, i: int): (r: seq<T>)
    ensures 0 <= i < |s| ==> r == s[..i] + s[i + 1..]
    ensures !(0 <= i < |s|) ==> r == s
  {
    if s == [] then []
    else
      var n := |s| - 1;
      var prior := Without(s[..n], i);
      assert 0 <= i < n ==> s[..n][..i] == s[..i] && s[..n][i + 1..] + [s[n]] == s[i + 1..];
      if n == i then prior else prior + [s[n]]
  }

  // ---------------------------------------------------------------------
  // The session

  /** Every field of a session, for stating what an operation leaves alone. */
  datatype Snapshot = Snapshot(
    isRunning: bool, isPaused: bool, score: int, lives: int, apples: seq<Apple>,
    basketX: real, displayWidth: real, fallSpeed: int, spawnRate: int,
    elapsedTime: int, ticking: bool, reported: seq<int>)

  class Game {
    var isRunning: bool
    var isPaused: bool
    var score: int
    var lives: int
    var apples: seq<Apple>
    var basketX: real
    var displayWidth: real
    var fallSpeed: int
    var spawnRate: int
    var elapsedTime: int
    /** Whether the elapsed-seconds interval is installed. */
    var ticking: bool
    /** The scores handed to the game-over callback (and to the on-chain
        submission beside it), in the order of the calls. */
    var reported: seq<int>

    function State(): Snapshot
      reads this
    {
      Snapshot(isRunning, isPaused, score, lives, apples, basketX, displayWidth,
               fallSpeed, spawnRate, elapsedTime, ticking, reported)
    }

    ghost predicate Valid()
      reads this
    {
      && 0 <= lives <= TotalLives
      && score >= 0
      && elapsedTime >= 0
      && IsTier(Tier(fallSpeed, spawnRate))
      && ticking == isRunning
      && (isRunning ==> lives > 0)
      && WellPlaced(apples)
    }

    constructor (width: real)
      ensures Valid()
      ensures State() == Snapshot(false, false, 0, TotalLives, [], GameWidth / 2.0, width,
                                  3, 1500, 0, false, [])
    {
      isRunning, isPaused := false, false;
      score, lives, apples := 0, TotalLives, [];
      basketX, displayWidth := GameWidth / 2.0, width;
      fallSpeed, spawnRate, elapsedTime := 3, 1500, 0;
      ticking, reported := false, [];
    }

    /** Start or restart: a fresh session, with the elapsed interval replaced. */
    method StartGame()
      requires Valid()
      modifies this
      ensures Valid()
      ensures State() == old(State()).(isRunning := true, isPaused := false, score := 0,
        lives := TotalLives, apples := [], fallSpeed := 3, spawnRate := 1500,
        elapsedTime := 0, ticking := true)
      ensures Tier(fallSpeed, spawnRate) == Difficulty(elapsedTime)
    {
      score, lives, apples := 0, TotalLives, [];
      isRunning, isPaused := true, false;
      fallSpeed, spawnRate := 3, 1500;
      elapsedTime := 0;
      ticking := true;
    }

    method TogglePause()
      requires Valid()
      modifies this
      ensures Valid()
      ensures State() == old(State()).(isPaused := !old(isPaused))
    {
      isPaused := !isPaused;
    }

    /** Pausing and resuming leaves the whole session as it was. */
    method PauseThenResume()
      requires Valid()
      modifies this
      ensures Valid()
      ensures State() == old(State())
    {
      TogglePause();
      TogglePause();
    }

    method KeyDown(key: string)
      requires Valid()
      modifies this
      ensures Valid()
      ensures old(!isRunning || isPaused) ==> State() == old(State())
      ensures old(isRunning && !isPaused) ==>
        State() == old(State()).(basketX := KeyStep(old(basketX), displayWidth, key))
    {
      if !isRunning || isPaused {
        return;
      }
      var step := Step(displayWidth);
      if key in LeftKeys {
        basketX := Max(0.0, basketX - step);
      }
      if key in RightKeys {
        basketX := Min(displayWidth - BasketWidth, basketX + step);
      }
    }

    /** A tap or click at `tapX`, with the play field's left edge at `left`. */
    method HandleTap(tapX: real, left: real)
      requires Valid()
      modifies this
      ensures Valid()
      ensures old(!isRunning || isPaused) ==> State() == old(State())
      ensures old(isRunning && !isPaused) ==>
        State() == old(State()).(basketX := TapTarget(tapX, left, displayWidth))
    {
      if !isRunning || isPaused {
        return;
      }
      var newX := tapX - left - BasketWidth / 2.0;
      basketX := Min(Max(newX, 0.0), displayWidth - BasketWidth);
    }

    /** One spawn, with `r` standing for the value of Math.random(). */
    method SpawnApple(r: real)
      requires Valid()
      requires 0.0 <= r < 1.0
      modifies this
      ensures Valid()
      ensures old(!isRunning || isPaused) ==> State() == old(State())
      ensures old(isRunning && !isPaused) ==>
        State() == old(State()).(apples := old(apples) + [Apple(SpawnX(r, displayWidth), 0.0, false)])
    {
      if !isRunning || isPaused {
        return;
      }
      var edgePadding := BasketWidth;
      var x := r * (displayWidth - edgePadding * 2.0) + edgePadding;
      assert x == SpawnX(r, displayWidth);
      apples := apples + [Apple(x, 0.0, false)];
    }

    /** The lives updater queued by one miss. `tickScore` is the score the
        tick's closure holds, which the game-over calls report. */
    method LoseLife(tickScore: int)
      requires Valid()
      modifies this
      ensures Valid()
      ensures State() == old(State()).(
        lives := if old(lives) > 1 then old(lives) - 1 else 0,
        isRunning := old(isRunning) && old(lives) > 1,
        ticking := old(ticking) && old(lives) > 1,
        reported := old(reported) + if old(lives) > 1 then [] else [tickScore])
    {
      var next := lives - 1;
      if next <= 0 {
        isRunning := false;
        ticking := false;
        reported := reported + [tickScore];
        lives := 0;
      } else {
        lives := next;
      }
    }

    /** One run of the fall interval: the apples updater, then the score and
        lives updaters it queued, applied in turn. The game-over calls report
        the score the tick started with. */
    method PhysicsTick()
      requires Valid()
      modifies this
      ensures Valid()
      ensures old(!isRunning || isPaused) ==> State() == old(State())
      ensures old(isRunning && !isPaused) ==>
        var landing := Fall(old(apples), fallSpeed, basketX);
        && isRunning == (landing.misses < old(lives))
        && State() == old(State()).(
             apples := landing.kept,
             score := old(score) + landing.catches,
             lives := if landing.misses < old(lives) then old(lives) - landing.misses else 0,
             isRunning := isRunning,
             ticking := isRunning,
             reported := old(reported) + Repeat(old(score), GameOverCalls(old(lives), landing.misses)))
    {
      if !isRunning || isPaused {
        return;
      }
      var tickScore, lives0 := score, lives;
      var newApples, catches, misses := FallPass(apples, fallSpeed, basketX);
      FallKeepsWellPlaced(apples, fallSpeed, basketX);
      apples := newApples;
      score := score + catches;
      ghost var afterFall := State();
      for k := 0 to misses
        invariant Valid()
        invariant State() == afterFall.(
          lives := if k < lives0 then lives0 - k else 0,
          isRunning := k < lives0,
          ticking := k < lives0,
          reported := afterFall.reported + Repeat(tickScore, GameOverCalls(lives0, k)))
      {
        if k >= lives0 - 1 {
          RepeatOneMore(tickScore, GameOverCalls(lives0, k));
        }
        LoseLife(tickScore);
      }
    }

    /** One run of the elapsed-seconds interval. It is not gated on pause. */
    method ElapsedTick()
      requires Valid()
      modifies this
      ensures Valid()
      ensures State() == old(State()).(elapsedTime := old(elapsedTime) + if ticking then 1 else 0)
    {
      if ticking {
        elapsedTime := elapsedTime + 1;
      }
    }

    /** The difficulty effect, run whenever elapsed time, running or paused changes. */
    method ApplyDifficulty()
      requires Valid()
      modifies this
      ensures Valid()
      ensures old(!isRunning || isPaused) ==> State() == old(State())
      ensures old(isRunning && !isPaused) ==>
        State() == old(State()).(fallSpeed := Difficulty(elapsedTime).fallSpeed,
                                 spawnRate := Difficulty(elapsedTime).spawnRate)
    {
      if !isRunning || isPaused {
        return;
      }
      if elapsedTime < 60 {
        fallSpeed, spawnRate := 3, 1500;
      } else if elapsedTime < 120 {
        fallSpeed, spawnRate := 5, 1000;
      } else {
        fallSpeed, spawnRate := 7, 700;
      }
    }

    /** The hearts indicator text. */
    method RenderHearts() returns (text: string)
      ensures text == Join(HeartSlots(lives), " ")
    {
      var hearts: seq<string> := [];
      for i := 0 to TotalLives
        invariant hearts == HeartSlots(lives)[..i]
      {
        hearts := hearts + [if i < lives then FullHeart else EmptyHeart];
      }
      assert HeartSlots(lives)[..TotalLives] == HeartSlots(lives);
      text := Join(hearts, " ");
    }

    /** The end of the pop animation of the apple drawn at index `i`. */
    method AnimationEnd(i: nat)
      requires Valid()
      modifies this
      ensures Valid()
      ensures State() == old(State()).(apples :=
        if i < |old(apples)| && old(apples)[i].caught then old(apples)[..i] + old(apples)[i + 1..] else old(apples))
    {
      if i < |apples| && apples[i].caught {
        apples := Without(apples, i);
      }
    }
  }
}
