/**
 * The snake game widget: a snake of cells on a 15x15 grid that moves one cell
 * per tick in the pending direction, dies on leaving the grid or running into
 * its own body, and grows by one cell (scoring one point) when its head lands
 * on the food.
 *
 * The widget's state cells become the fields of class Game, each handler a
 * method. One call of Tick is one advancement of the game loop; rendering and
 * frame scheduling are not modelled.
 */
module Snake {
  import opened Optional

  const GridSize: int := 15

  datatype Direction = Up | Down | Left | Right

  datatype Position = Position(x: int, y: int)

  const StartCell := Position(5, 5)
  const InitialFood := Position(10, 10)

  predicate InGrid(p: Position) {
    0 <= p.x < GridSize && 0 <= p.y < GridSize
  }

  function Abs(n: int): nat {
    if n < 0 then -n else n
  }

  /** The two cells share an edge. */
  predicate Adjacent(p: Position, q: Position) {
    Abs(p.x - q.x) + Abs(p.y - q.y) == 1
  }

  function Opposite(d: Direction): (r: Direction)
    ensures r != d
  {
    match d
    case Up => Down
    case Down => Up
    case Left => Right
    case Right => Left
  }

  lemma OppositeInvolutive(d: Direction)
    ensures Opposite(Opposite(d)) == d
  {
  }

  /** The head's move in one tick: y grows downwards, x to the right. */
  function Step(p: Position, d: Direction): (q: Position)
    ensures Adjacent(p, q)
  {
    match d
    case Up => p.(y := p.y - 1)
    case Down => p.(y := p.y + 1)
    case Left => p.(x := p.x - 1)
    case Right => p.(x := p.x + 1)
  }

  /** A step is undone by a step the opposite way, and each direction leads to its own cell. */
  lemma StepInverse(p: Position, d: Direction, e: Direction)
    ensures Step(Step(p, d), Opposite(d)) == p
    ensures Step(p, d) == Step(p, e) ==> d == e
  {
  }

  /** `segments.some(...)`: some segment sits on `cell`. */
  function Occupies(segments: seq<Position>, cell: Position): (r: bool)
    ensures r <==> exists i :: 0 <= i < |segments| && segments[i] == cell
  {
    if segments == [] then false
    else segments[0] == cell || Occupies(segments[1..], cell)
  }

  /**
   * The game-over test for a candidate head: off the grid, or on a segment of
   * the body other than the old head (the tail included, although it is about
   * to move away).
   */
  function Collides(snake: seq<Position>, head: Position): (r: bool)
    requires |snake| >= 1
    ensures r <==> !InGrid(head) || exists i :: 1 <= i < |snake| && snake[i] == head
  {
    !InGrid(head) || Occupies(snake[1..], head)
  }

  /** The `Math.floor(Math.random() * GRID_SIZE)` draw on each axis, for random numbers rx, ry in [0, 1). */
  function FoodCell(rx: real, ry: real): (p: Position)
    requires 0.0 <= rx < 1.0 && 0.0 <= ry < 1.0
    ensures InGrid(p)
  {
    Position((rx * GridSize as real).Floor, (ry * GridSize as real).Floor)
  }

  /** Every cell of the grid can be drawn as food, including the cells the snake occupies. */
  lemma FoodCanLandAnywhere(c: Position)
    requires InGrid(c)
    ensures exists rx: real, ry: real :: 0.0 <= rx < 1.0 && 0.0 <= ry < 1.0 && FoodCell(rx, ry) == c
  {
    var rx, ry := c.x as real / GridSize as real, c.y as real / GridSize as real;
    assert rx * GridSize as real == c.x as real;
    assert ry * GridSize as real == c.y as real;
    assert FoodCell(rx, ry) == c;
  }

  ghost predicate OnGrid(s: seq<Position>) {
    forall i :: 0 <= i < |s| ==> InGrid(s[i])
  }

  /** Consecutive segments share an edge. */
  ghost predicate Connected(s: seq<Position>) {
    forall i :: 0 <= i < |s| - 1 ==> Adjacent(s[i], s[i + 1])
  }

  ghost predicate Distinct(s: seq<Position>) {
    forall i, j :: 0 <= i < j < |s| ==> s[i] != s[j]
  }

  /** A snake body as the game keeps it: non-empty, on the grid, connected, never overlapping itself. */
  ghost predicate WellFormed(s: seq<Position>) {
    |s| >= 1 && OnGrid(s) && Connected(s) && Distinct(s)
  }

  /**
   * A head that moved one cell and did not collide keeps the body well formed,
   * whether the body grows (the whole old snake is kept) or moves (its last
   * segment is dropped).
   */
  lemma AdvanceKeepsWellFormed(snake: seq<Position>, head: Position, grow: bool)
    requires WellFormed(snake)
    requires Adjacent(snake[0], head)
    requires !Collides(snake, head)
    ensures WellFormed(if grow then [head] + snake else [head] + snake[..|snake| - 1])
  {
    assert head != snake[0];
    assert forall i :: 0 <= i < |snake| ==> snake[i] != head;
    var body := if grow then snake else snake[..|snake| - 1];
    var s := [head] + body;
    assert forall i :: 1 <= i < |s| ==> s[i] == body[i - 1];
    assert forall i :: 0 <= i < |body| ==> body[i] == snake[i];
    assert OnGrid(s);
    assert Connected(s) by {
      forall i | 0 <= i < |s| - 1
        ensures Adjacent(s[i], s[i + 1])
      {
        if i > 0 {
          assert s[i] == snake[i - 1] && s[i + 1] == snake[i];
        }
      }
    }
    assert Distinct(s) by {
      forall i, j | 0 <= i < j < |s|
        ensures s[i] != s[j]
      {
        if i > 0 {
          assert s[i] == snake[i - 1] && s[j] == snake[j - 1];
        }
      }
    }
  }

  /** The direction an arrow key asks for; no direction for any other key. */
  function KeyDirection(key: string): (r: Option<Direction>)
    ensures r.Some? <==> key in {"ArrowUp", "ArrowDown", "ArrowLeft", "ArrowRight"}
  {
    if key == "ArrowUp" then Some(Up)
    else if key == "ArrowDown" then Some(Down)
    else if key == "ArrowLeft" then Some(Left)
    else if key == "ArrowRight" then Some(Right)
    else None
  }

  class Game {
    var snake: seq<Position>
    var food: Position
    var direction: Direction
    var isGameOver: bool
    var isPaused: bool
    var score: int

    /** The game's invariant: a well-formed body one cell longer than the score, food on the grid. */
    ghost predicate Valid()
      reads this
    {
      WellFormed(snake) && InGrid(food) && |snake| == score + 1
    }

    /** The widget as mounted: a one-cell snake at (5, 5) heading right, paused. */
    constructor ()
      ensures Valid()
      ensures snake == [StartCell] && food == InitialFood && direction == Right
      ensures !isGameOver && isPaused && score == 0
    {
      snake := [StartCell];
      food := InitialFood;
      direction := Right;
      isGameOver := false;
      isPaused := true;
      score := 0;
    }

    /** Moves the food to the cell drawn by rx, ry; it may be a snake cell. */
    method PlaceFood(rx: real, ry: real)
      requires 0.0 <= rx < 1.0 && 0.0 <= ry < 1.0
      modifies this
      ensures food == FoodCell(rx, ry) && InGrid(food)
      ensures snake == old(snake) && direction == old(direction) && score == old(score)
      ensures isGameOver == old(isGameOver) && isPaused == old(isPaused)
    {
      food := FoodCell(rx, ry);
    }

    method ResetGame(rx: real, ry: real)
      requires 0.0 <= rx < 1.0 && 0.0 <= ry < 1.0
      modifies this
      ensures Valid()
      ensures snake == [StartCell] && direction == Right && !isGameOver && score == 0
      ensures food == FoodCell(rx, ry) && isPaused
    {
      snake := [StartCell];
      direction := Right;
      isGameOver := false;
      score := 0;
      PlaceFood(rx, ry);
      isPaused := true;
    }

    method TogglePause()
      requires Valid()
      modifies this
      ensures Valid()
      ensures isPaused == !old(isPaused)
      ensures snake == old(snake) && food == old(food) && direction == old(direction)
      ensures score == old(score) && isGameOver == old(isGameOver)
    {
      isPaused := !isPaused;
    }

    /**
     * The keyboard handler. An arrow key turns the snake unless it asks for the
     * exact opposite of the pending direction; Space toggles the pause, also
     * after the game is over; any other key does nothing.
     */
    method HandleKeydown(key: string)
      requires Valid()
      modifies this
      ensures Valid()
      ensures direction != Opposite(old(direction))
      ensures direction != old(direction) ==> KeyDirection(key) == Some(direction)
      ensures KeyDirection(key).Some? && KeyDirection(key).value != Opposite(old(direction)) ==>
        direction == KeyDirection(key).value
      ensures isPaused == (if key == " " then !old(isPaused) else old(isPaused))
      ensures snake == old(snake) && food == old(food) && score == old(score)
      ensures isGameOver == old(isGameOver)
    {
      if key == "ArrowUp" {
        if direction != Down { direction := Up; }
      } else if key == "ArrowDown" {
        if direction != Up { direction := Down; }
      } else if key == "ArrowLeft" {
        if direction != Right { direction := Left; }
      } else if key == "ArrowRight" {
        if direction != Left { direction := Right; }
      } else if key == " " {
        TogglePause();
      }
    }

    /**
     * One advancement of the game loop. Nothing happens while paused or over.
     * Otherwise the head moves one cell in the pending direction; a collision
     * ends the game leaving snake, food and score as they were; landing on
     * the food grows the snake by one cell, adds one point and redraws the
     * food from rx, ry; any other move drops the last segment.
     */
    method Tick(rx: real, ry: real) returns (ticked: bool)
      requires Valid()
      requires 0.0 <= rx < 1.0 && 0.0 <= ry < 1.0
      modifies this
      ensures Valid()
      ensures ticked <==> !old(isPaused) && !old(isGameOver)
      ensures direction == old(direction) && isPaused == old(isPaused)
      ensures !ticked ==>
        snake == old(snake) && food == old(food) && score == old(score) && isGameOver == old(isGameOver)
      ensures ticked && Collides(old(snake), Step(old(snake)[0], direction)) ==>
        isGameOver && snake == old(snake) && food == old(food) && score == old(score)
      ensures ticked && !Collides(old(snake), Step(old(snake)[0], direction)) ==>
        && !isGameOver
        && snake[0] == Step(old(snake)[0], direction)
        && (if snake[0] == old(food)
            then snake[1..] == old(snake) && score == old(score) + 1 && food == FoodCell(rx, ry)
            else snake[1..] == old(snake)[..|old(snake)| - 1] && score == old(score) && food == old(food))
      ensures old(score) <= score <= old(score) + 1
      ensures |snake| - |old(snake)| == score - old(score)
    {
      if isPaused || isGameOver {
        return false;
      }
      ticked := true;
      var head := snake[0];
      match direction {
        case Up => head := head.(y := head.y - 1);
        case Down => head := head.(y := head.y + 1);
        case Left => head := head.(x := head.x - 1);
        case Right => head := head.(x := head.x + 1);
      }
      if Collides(snake, head) {
        isGameOver := true;
        return;
      }
      var ate := head == food;
      AdvanceKeepsWellFormed(snake, head, ate);
      var newSnake := [head] + snake;
      if ate {
        score := score + 1;
        PlaceFood(rx, ry);
      } else {
        newSnake := newSnake[..|newSnake| - 1];
      }
      assert newSnake == if ate then [head] + snake else [head] + snake[..|snake| - 1];
      snake := newSnake;
    }
  }

  /** From the mounted state, Space then one tick moves the one-cell snake from (5, 5) to (6, 5). */
  method FirstTickScenario() {
    var g := new Game();
    g.HandleKeydown(" ");
    var ticked := g.Tick(0.5, 0.5);
    assert ticked && g.snake[0] == Position(6, 5) && |g.snake| == 1;
    assert g.score == 0 && !g.isGameOver;
  }

  /** Once over, ticks change nothing until a reset restores the start position, paused. */
  method GameOverScenario(g: Game)
    requires g.Valid() && g.isGameOver
    modifies g
  {
    var ticked := g.Tick(0.0, 0.0);
    assert !ticked && g.isGameOver;
    g.ResetGame(0.0, 0.0);
    assert g.snake == [StartCell] && g.score == 0 && g.isPaused && !g.isGameOver;
  }
}
