/** The snake easter egg of components/SnakeGame.js: a 20 x 20 grid, the
    snake as a list of cells head first, one food cell, a committed direction
    and a buffered next direction, the score and the best score, and the
    game state idle / playing / paused / gameOver. The component keeps these
    in React state cells and changes them from a periodic tick and from
    keyboard and touch input; here they are the fields of class SnakeGame and
    each handler is a method. Math.random() is an oracle: a sequence of draws
    in [0, 1) handed to the tick. */
module Snake {
  import opened JsBuiltins

  // ---------------------------------------------------------------------------
  // Grid, cells and directions
  // ---------------------------------------------------------------------------

  const GridSize := 12
  const CanvasSize := 240
  /** Cells per side: CanvasSize / GridSize. */
  const GridCount := 20

  /** A grid cell, or a direction vector. */
  datatype Cell = Cell(x: int, y: int)

  const Zero := Cell(0, 0)
  const Up := Cell(0, -1)
  const Down := Cell(0, 1)
  const Left := Cell(-1, 0)
  const Right := Cell(1, 0)

  function Add(c: Cell, d: Cell): Cell {
    Cell(c.x + d.x, c.y + d.y)
  }

  function Neg(d: Cell): Cell {
    Cell(-d.x, -d.y)
  }

  predicate InGrid(c: Cell) {
    0 <= c.x < GridCount && 0 <= c.y < GridCount
  }

  predicate IsUnit(d: Cell) {
    d == Up || d == Down || d == Left || d == Right
  }

  /** The values `direction` and `nextDirection` ever take: a unit step, or
      standing still before the first start. */
  predicate IsHeading(d: Cell) {
    -1 <= d.x <= 1 && -1 <= d.y <= 1 && (d.x == 0 || d.y == 0)
  }

  predicate Distinct(s: seq<Cell>) {
    forall i, j :: 0 <= i < j < |s| ==> s[i] != s[j]
  }

  predicate AllInGrid(s: seq<Cell>) {
    forall i :: 0 <= i < |s| ==> InGrid(s[i])
  }

  datatype GameState = Idle | Playing | Paused | GameOver

  // ---------------------------------------------------------------------------
  // Direction input
  // ---------------------------------------------------------------------------

  /** The key map of handleKeyPress: arrows and WASD in either case. */
  function KeyDirection(key: string): (r: Option<Cell>)
    ensures r.Some? ==> IsUnit(r.value)
    ensures r.Some? <==> key in {"ArrowUp", "ArrowDown", "ArrowLeft", "ArrowRight",
                                 "w", "W", "s", "S", "a", "A", "d", "D"}
  {
    match key
    case "ArrowUp" => Some(Up)
    case "ArrowDown" => Some(Down)
    case "ArrowLeft" => Some(Left)
    case "ArrowRight" => Some(Right)
    case "w" => Some(Up)
    case "W" => Some(Up)
    case "s" => Some(Down)
    case "S" => Some(Down)
    case "a" => Some(Left)
    case "A" => Some(Left)
    case "d" => Some(Right)
    case "D" => Some(Right)
    case _ => None
  }

  /** The keyboard test: a key is refused when both components of its
      direction are the negated components of the committed direction. */
  predicate KeyAccepted(requested: Cell, direction: Cell) {
    requested.x != -direction.x || requested.y != -direction.y
  }

  const MinSwipeDistance: real := 30.0

  function Abs(r: real): real {
    if r < 0.0 then -r else r
  }

  /** The swipe classification of handleCanvasTouchEnd: the axis that moved
      further wins, a tie goes to the vertical axis, and the move counts only
      when it is longer than 30 pixels. */
  function SwipeDirection(dx: real, dy: real): (r: Option<Cell>)
    ensures r.Some? ==> IsUnit(r.value)
  {
    if Abs(dx) > Abs(dy) then
      if Abs(dx) > MinSwipeDistance then Some(if dx > 0.0 then Right else Left) else None
    else
      if Abs(dy) > MinSwipeDistance then Some(if dy > 0.0 then Down else Up) else None
  }

  /** Each direction is chosen by exactly the swipes that travel more than
      30 pixels that way along the axis that moved further; a tie between
      the axes goes to the vertical one, and shorter swipes choose nothing. */
  lemma SwipeClassification(dx: real, dy: real)
    ensures SwipeDirection(dx, dy) == Some(Right) <==> Abs(dx) > Abs(dy) && dx > MinSwipeDistance
    ensures SwipeDirection(dx, dy) == Some(Left) <==> Abs(dx) > Abs(dy) && dx < -MinSwipeDistance
    ensures SwipeDirection(dx, dy) == Some(Down) <==> Abs(dx) <= Abs(dy) && dy > MinSwipeDistance
    ensures SwipeDirection(dx, dy) == Some(Up) <==> Abs(dx) <= Abs(dy) && dy < -MinSwipeDistance
    ensures SwipeDirection(dx, dy).None? <==> Abs(dx) <= MinSwipeDistance && Abs(dy) <= MinSwipeDistance
  {
  }

  /** The swipe test looks at one component only: x for a horizontal swipe,
      y for a vertical one. */
  predicate SwipeAccepted(requested: Cell, direction: Cell) {
    if requested.y == 0 then requested.x != -direction.x else requested.y != -direction.y
  }

  /** For the directions the game uses, both tests refuse exactly the
      reversal of the committed direction. */
  lemma InputRefusesOnlyReversal(requested: Cell, direction: Cell)
    requires IsUnit(requested) && IsHeading(direction)
    ensures KeyAccepted(requested, direction) <==> requested != Neg(direction)
    ensures SwipeAccepted(requested, direction) <==> requested != Neg(direction)
  {
  }

  // ---------------------------------------------------------------------------
  // Food generation
  // ---------------------------------------------------------------------------

  /** One pair of Math.random() results. */
  type Draw = (real, real)

  predicate InUnit(d: Draw) {
    0.0 <= d.0 < 1.0 && 0.0 <= d.1 < 1.0
  }

  predicate AllInUnit(draws: seq<Draw>) {
    forall i :: 0 <= i < |draws| ==> InUnit(draws[i])
  }

  /** `{ x: Math.floor(r0 * GRID_COUNT), y: Math.floor(r1 * GRID_COUNT) }`. */
  function Candidate(d: Draw): (c: Cell)
    ensures InUnit(d) ==> InGrid(c)
  {
    Cell(Floor(d.0 * GridCount as real), Floor(d.1 * GridCount as real))
  }

  /** Some draw lands outside the snake, so the rejection loop stops. */
  predicate HasFreeDraw(snake: seq<Cell>, draws: seq<Draw>) {
    exists i :: 0 <= i < |draws| && Candidate(draws[i]) !in snake
  }

  /** The position of the draw the rejection loop accepts: the first whose
      cell is not on the snake. */
  function FirstFreeDraw(snake: seq<Cell>, draws: seq<Draw>): (k: nat)
    requires HasFreeDraw(snake, draws)
    ensures k < |draws| && Candidate(draws[k]) !in snake
    ensures forall j :: 0 <= j < k ==> Candidate(draws[j]) in snake
  {
    if Candidate(draws[0]) !in snake then 0
    else
      assert HasFreeDraw(snake, draws[1..]) by {
        var i :| 0 <= i < |draws| && Candidate(draws[i]) !in snake;
        assert draws[1..][i - 1] == draws[i];
      }
      1 + FirstFreeDraw(snake, draws[1..])
  }

  /** generateFood: draws cells until one is not on `snake`, the snake the
      callback captured when it was created. Returns the cell and the
      position of the accepted draw. */
  method GenerateFood(snake: seq<Cell>, draws: seq<Draw>) returns (food: Cell, used: nat)
    requires AllInUnit(draws)
    requires HasFreeDraw(snake, draws)
    ensures used == FirstFreeDraw(snake, draws)
    ensures food == Candidate(draws[used])
    ensures InGrid(food) && food !in snake
  {
    used := 0;
    food := Candidate(draws[used]);
    while food in snake
      invariant used <= FirstFreeDraw(snake, draws)
      invariant food == Candidate(draws[used])
      decreases FirstFreeDraw(snake, draws) - used
    {
      used := used + 1;
      food := Candidate(draws[used]);
    }
  }

  /** The draw that lands exactly on cell c: each coordinate over GRID_COUNT. */
  function DrawFor(c: Cell): (d: Draw)
    requires InGrid(c)
    ensures InUnit(d) && Candidate(d) == c
  {
    var d := ((c.x as real) / GridCount as real, (c.y as real) / GridCount as real);
    assert d.0 * GridCount as real == c.x as real;
    assert d.1 * GridCount as real == c.y as real;
    d
  }

  /** A cell on the grid and off the snake, such as the food the head is
      about to eat, can always be drawn; so an oracle meeting the rejection
      loop's precondition exists whenever a tick eats. */
  lemma FreeCellGivesFreeDraw(snake: seq<Cell>, free: Cell)
    requires InGrid(free) && free !in snake
    ensures AllInUnit([DrawFor(free)]) && HasFreeDraw(snake, [DrawFor(free)])
  {
    assert Candidate([DrawFor(free)][0]) == free;
  }

  // ---------------------------------------------------------------------------
  // Moving the snake
  // ---------------------------------------------------------------------------

  /** The cell the head moves to, one step along `d`. */
  function Advance(snake: seq<Cell>, d: Cell): Cell
    requires |snake| >= 1
  {
    Add(snake[0], d)
  }

  /** A move into `head` ends the game: it leaves the grid or lands on any
      cell of the snake as it is before the move, the tail included. */
  predicate Collides(snake: seq<Cell>, head: Cell) {
    !InGrid(head) || head in snake
  }

  /** A head that is not on the body keeps the cells distinct, whether the
      tail is dropped or kept. */
  lemma PrependKeepsDistinct(snake: seq<Cell>, head: Cell)
    requires |snake| >= 1 && Distinct(snake) && head !in snake
    requires AllInGrid(snake) && InGrid(head)
    ensures Distinct([head] + snake) && AllInGrid([head] + snake)
    ensures Distinct([head] + snake[..|snake| - 1]) && AllInGrid([head] + snake[..|snake| - 1])
  {
    var grown := [head] + snake;
    forall i, j | 0 <= i < j < |grown| ensures grown[i] != grown[j] {
      if i > 0 {
        assert grown[i] == snake[i - 1] && grown[j] == snake[j - 1];
      } else {
        assert grown[j] in snake;
      }
    }
    assert [head] + snake[..|snake| - 1] == grown[..|grown| - 1];
  }

  // ---------------------------------------------------------------------------
  // The component
  // ---------------------------------------------------------------------------

  /** `Math.floor(GRID_COUNT / 2)` on both axes. */
  const StartCell := Cell(10, 10)
  /** Five cells to the right of the start cell. */
  const ResetFood := Cell(StartCell.x + 5, StartCell.y)

  class SnakeGame {
    var gameState: GameState
    var score: int
    var highScore: int
    var snake: seq<Cell>
    var food: Cell
    var direction: Cell
    var nextDirection: Cell
    /** Where the last touch on the canvas began, relative to the canvas. */
    var touchStartX: real
    var touchStartY: real

    /** The snake lies on the grid with no cell twice, the food is on the
        grid, the score is a multiple of 10 never above the best score, and
        the buffered direction is never the reversal of the committed one
        (it may equal it, which is how both sit at (0, 0) after a reset). */
    ghost predicate Valid()
      reads this
    {
      |snake| >= 1 && AllInGrid(snake) && Distinct(snake) && InGrid(food) &&
      score >= 0 && score % 10 == 0 && highScore >= score &&
      IsHeading(direction) && IsHeading(nextDirection) &&
      (nextDirection == direction || nextDirection != Neg(direction))
    }

    /** The cell the head moves to on the next tick. */
    ghost function NextHead(): Cell
      reads this
      requires |snake| >= 1
    {
      Advance(snake, nextDirection)
    }

    /** The next tick ends the game. */
    ghost predicate CollidesOnTick()
      reads this
      requires |snake| >= 1
    {
      Collides(snake, NextHead())
    }

    /** The next tick eats the food. */
    ghost predicate EatsOnTick()
      reads this
      requires |snake| >= 1
    {
      gameState == Playing && !CollidesOnTick() && NextHead() == food
    }

    /** When the next tick eats, the eaten food cell itself is a free draw:
        the tick's precondition on the oracle can always be met. */
    lemma EatingTickCanBeFed()
      requires Valid() && EatsOnTick()
      ensures AllInUnit([DrawFor(food)]) && HasFreeDraw(snake, [DrawFor(food)])
    {
      FreeCellGivesFreeDraw(snake, food);
    }

    /** The initial state cells; `storedHighScore` is what local storage held. */
    constructor (storedHighScore: nat)
      ensures Valid()
      ensures gameState == Idle && score == 0 && highScore == storedHighScore
      ensures snake == [Cell(10, 10)] && food == Cell(15, 15)
      ensures direction == Zero && nextDirection == Zero
    {
      gameState := Idle;
      score := 0;
      highScore := storedHighScore;
      snake := [Cell(10, 10)];
      food := Cell(15, 15);
      direction := Zero;
      nextDirection := Zero;
      touchStartX, touchStartY := 0.0, 0.0;
    }

    /** resetGame: a one-cell snake in the middle, food five cells to its
        right, no motion, score 0, idle; the best score stays. */
    method ResetGame()
      requires Valid()
      modifies this
      ensures Valid()
      ensures snake == [Cell(10, 10)] && food == Cell(15, 10)
      ensures direction == Zero && nextDirection == Zero
      ensures score == 0 && gameState == Idle
      ensures highScore == old(highScore)
      ensures touchStartX == old(touchStartX) && touchStartY == old(touchStartY)
    {
      snake := [StartCell];
      food := ResetFood;
      direction := Zero;
      nextDirection := Zero;
      score := 0;
      gameState := Idle;
    }

    /** startGame: from idle a fresh game heading right; from any other
        state (the pause button's resume) only the state becomes playing. */
    method StartGame()
      requires Valid()
      modifies this
      ensures Valid()
      ensures gameState == Playing && highScore == old(highScore)
      ensures old(gameState) == Idle ==>
                snake == [Cell(10, 10)] && food == Cell(15, 10) &&
                direction == Right && nextDirection == Right && score == 0
      ensures old(gameState) != Idle ==>
                snake == old(snake) && food == old(food) && score == old(score) &&
                direction == old(direction) && nextDirection == old(nextDirection)
      ensures touchStartX == old(touchStartX) && touchStartY == old(touchStartY)
    {
      if gameState == Idle {
        ResetGame();
        direction := Right;
        nextDirection := Right;
      }
      gameState := Playing;
    }

    /** playAgain: always a fresh game heading right, playing. */
    method PlayAgain()
      requires Valid()
      modifies this
      ensures Valid()
      ensures snake == [Cell(10, 10)] && food == Cell(15, 10)
      ensures direction == Right && nextDirection == Right
      ensures score == 0 && gameState == Playing && highScore == old(highScore)
      ensures touchStartX == old(touchStartX) && touchStartY == old(touchStartY)
    {
      ResetGame();
      direction := Right;
      nextDirection := Right;
      gameState := Playing;
    }

    /** pauseGame. */
    method PauseGame()
      requires Valid()
      modifies this`gameState
      ensures Valid() && gameState == Paused
    {
      gameState := Paused;
    }

    /** closeGame: the state goes back to idle; the window's closing
        animation and the onClose callback are outside the model. */
    method CloseGame()
      requires Valid()
      modifies this`gameState
      ensures Valid() && gameState == Idle
    {
      gameState := Idle;
    }

    /** handleKeyPress: while playing, a mapped key that does not reverse the
        committed direction becomes the next direction. */
    method KeyPress(key: string)
      requires Valid()
      modifies this`nextDirection
      ensures Valid()
      ensures var req := KeyDirection(key);
              nextDirection ==
                if old(gameState) == Playing && req.Some? && KeyAccepted(req.value, direction)
                then req.value else old(nextDirection)
      ensures nextDirection != old(nextDirection) ==> nextDirection != Neg(direction)
    {
      if gameState != Playing {
        return;
      }
      var newDirection := KeyDirection(key);
      if newDirection.Some? && KeyAccepted(newDirection.value, direction) {
        InputRefusesOnlyReversal(newDirection.value, direction);
        nextDirection := newDirection.value;
      }
    }

    /** handleCanvasTouchStart: while playing, remember where the touch began. */
    method TouchStart(x: real, y: real)
      requires Valid()
      modifies this`touchStartX, this`touchStartY
      ensures Valid()
      ensures old(gameState) == Playing ==> touchStartX == x && touchStartY == y
      ensures old(gameState) != Playing ==> touchStartX == old(touchStartX) && touchStartY == old(touchStartY)
    {
      if gameState != Playing {
        return;
      }
      touchStartX, touchStartY := x, y;
    }

    /** handleCanvasTouchEnd: while playing, a swipe long enough along its
        dominant axis that does not reverse the committed direction becomes
        the next direction. */
    method TouchEnd(x: real, y: real)
      requires Valid()
      modifies this`nextDirection
      ensures Valid()
      ensures var req := SwipeDirection(x - old(touchStartX), y - old(touchStartY));
              nextDirection ==
                if old(gameState) == Playing && req.Some? && SwipeAccepted(req.value, old(direction))
                then req.value else old(nextDirection)
      ensures nextDirection != old(nextDirection) ==> nextDirection != Neg(direction)
    {
      if gameState != Playing {
        return;
      }
      var deltaX := x - touchStartX;
      var deltaY := y - touchStartY;
      ghost var req := SwipeDirection(deltaX, deltaY);
      if Abs(deltaX) > Abs(deltaY) {
        if Abs(deltaX) > MinSwipeDistance {
          var newDirection := if deltaX > 0.0 then Right else Left;
          assert req == Some(newDirection);
          if newDirection.x != -direction.x {
            InputRefusesOnlyReversal(newDirection, direction);
            nextDirection := newDirection;
          }
        } else {
          assert req.None?;
        }
      } else {
        if Abs(deltaY) > MinSwipeDistance {
          var newDirection := if deltaY > 0.0 then Down else Up;
          assert req == Some(newDirection);
          if newDirection.y != -direction.y {
            InputRefusesOnlyReversal(newDirection, direction);
            nextDirection := newDirection;
          }
        } else {
          assert req.None?;
        }
      }
    }

    /** gameLoop: one tick. `draws` stands for the Math.random() results the
        food generation would consume. */
    method Tick(draws: seq<Draw>)
      requires Valid() && AllInUnit(draws)
      requires EatsOnTick() ==> HasFreeDraw(snake, draws)
      modifies this
      ensures Valid()
      ensures highScore >= old(highScore)
      // Only a playing game moves.
      ensures old(gameState) != Playing ==>
                gameState == old(gameState) && snake == old(snake) && food == old(food) &&
                score == old(score) && highScore == old(highScore) &&
                direction == old(direction) && nextDirection == old(nextDirection)
      // The buffered direction is committed; it never reverses the old one.
      ensures old(gameState) == Playing ==> direction == old(nextDirection) && nextDirection == old(nextDirection)
      ensures direction == old(direction) || direction != Neg(old(direction))
      // A collision ends the game and keeps the snake as it was.
      ensures var head := Advance(old(snake), old(nextDirection));
              old(gameState) == Playing && Collides(old(snake), head) ==>
                gameState == GameOver && snake == old(snake) && food == old(food) &&
                score == old(score) && highScore == old(highScore)
      // A plain move: the new head in front, the tail cell dropped.
      ensures var head := Advance(old(snake), old(nextDirection));
              old(gameState) == Playing && !Collides(old(snake), head) && head != old(food) ==>
                gameState == Playing && |snake| == |old(snake)| &&
                snake == [head] + old(snake)[..|old(snake)| - 1] &&
                food == old(food) && score == old(score) && highScore == old(highScore)
      // Eating: one cell longer, ten more points, a new best score when
      // beaten, and new food away from the snake as it was before the move.
      ensures var head := Advance(old(snake), old(nextDirection));
              old(gameState) == Playing && !Collides(old(snake), head) && head == old(food) ==>
                gameState == Playing &&
                snake == [head] + old(snake) &&
                score == old(score) + 10 &&
                highScore == (if score > old(highScore) then score else old(highScore)) &&
                food == Candidate(draws[FirstFreeDraw(old(snake), draws)]) &&
                InGrid(food) && food !in old(snake)
      ensures touchStartX == old(touchStartX) && touchStartY == old(touchStartY)
    {
      if gameState != Playing {
        return;
      }
      direction := nextDirection;
      var head := Add(snake[0], nextDirection);
      if !InGrid(head) || head in snake {
        gameState := GameOver;
        return;
      }
      PrependKeepsDistinct(snake, head);
      var newSnake := [head] + snake;
      if head == food {
        var newScore := score + 10;
        if newScore > highScore {
          highScore := newScore;
        }
        score := newScore;
        var newFood, _ := GenerateFood(snake, draws);
        food := newFood;
      } else {
        assert newSnake[..|newSnake| - 1] == [head] + snake[..|snake| - 1];
        newSnake := newSnake[..|newSnake| - 1];
      }
      snake := newSnake;
    }
  }

  // ---------------------------------------------------------------------------
  // Scenarios
  // ---------------------------------------------------------------------------

  /** Running into the cell the tail is about to leave ends the game: the
      collision test sees the snake before the move. */
  method TailChaseScenario()
  {
    var g := new SnakeGame(0);
    g.StartGame();
    g.snake := [Cell(10, 10), Cell(10, 11), Cell(11, 11), Cell(11, 10)];
    assert g.Valid();
    g.Tick([]);
    assert g.gameState == GameOver;
    assert g.snake == [Cell(10, 10), Cell(10, 11), Cell(11, 11), Cell(11, 10)];
  }

  /** New food may appear under the new head: generateFood avoids only the
      snake from before the move, and the cell just eaten is not part of it. */
  method FoodUnderHeadScenario()
  {
    var g := new SnakeGame(0);
    g.StartGame();
    var i := 0;
    while i < 4
      invariant 0 <= i <= 4
      invariant g.Valid() && g.gameState == Playing && g.score == 0
      invariant g.direction == Right && g.nextDirection == Right
      invariant g.snake == [Cell(10 + i, 10)] && g.food == Cell(15, 10)
    {
      g.Tick([]);
      i := i + 1;
    }
    var draws := [(0.75, 0.5)];
    assert Candidate(draws[0]) == Cell(15, 10);
    assert FirstFreeDraw(g.snake, draws) == 0;
    g.Tick(draws);
    assert g.score == 10 && g.snake == [Cell(15, 10), Cell(14, 10)];
    assert g.food == g.snake[0];
  }

  /** Leaving the grid ends the game with the snake as it was: heading up
      from the start cell, the tenth step reaches row 0 and the eleventh
      would leave the grid. */
  method WallScenario()
  {
    var g := new SnakeGame(0);
    g.StartGame();
    g.KeyPress("ArrowUp");
    var i := 0;
    while i < 10
      invariant 0 <= i <= 10
      invariant g.Valid() && g.gameState == Playing && g.nextDirection == Up
      invariant g.direction == Right || g.direction == Up
      invariant g.snake == [Cell(10, 10 - i)] && g.food == Cell(15, 10)
    {
      g.Tick([]);
      i := i + 1;
    }
    g.Tick([]);
    assert g.gameState == GameOver && g.snake == [Cell(10, 0)];
  }
}
