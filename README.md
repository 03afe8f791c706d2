# Portfolio widgets: a Dafny model

This project models the four stateful widgets of a portfolio site's project
gallery and proves properties of them:

- **Snake game** (`snake.dfy`, module `Snake`): a snake of cells on a 15×15
  grid. The widget's state (`snake`, `food`, `direction`, `isGameOver`,
  `isPaused`, `score`) becomes the fields of class `Game`. The key handler,
  pause toggle, reset, food placement and one tick of the game loop become its
  methods. Every method keeps the invariant `Game.Valid()`. It says the body
  is non-empty and on the grid. Consecutive segments share an edge and no two
  segments overlap. The body is always exactly one cell longer than the score,
  and the food lies on the grid.
- **Todo list** (`todo.dfy`, module `Todos`): adding, toggling and deleting
  items. Toggle and delete are pure list functions (`Toggle`, `Delete`), and
  class `TodoList` assigns their results to its `todos` field. The blank-input
  guard uses a model of `String.prototype.trim` (`Trim`).
- **Calculator** (`calculator.dfy`, module `Calculator`): the display string
  and the three control fields, stepped by the digit, decimal point, clear,
  operator and equals buttons. Parsing, double arithmetic and printing are
  uninterpreted: class `Calculator<N>` takes them as a `FloatOps<N>` record of
  functions. `Calculator.Valid()` is kept by every button. It says the
  calculator only waits for a second operand while an operator is pending, and
  an operator is only pending once a first operand is stored.
- **Digital clock** (`clock.dfy`, module `Clock`): `formatTime` with 12/24-hour
  conversion, AM/PM, zero padding and optional seconds. Also the theme class
  and the format, seconds and theme buttons. These are pure functions over the
  given hours, minutes and seconds and over a `Settings` value.

`optional.dfy` holds the `Option` type that stands for TypeScript's `T | null`.

Behaviour of the code that the model keeps as it is:

- Space toggles `isPaused` even after the game is over. Only the Start/Pause
  button is disabled then; the key handler does not check. While
  the game is over no tick runs either way, and reset sets `isPaused` again.
- The self-collision test looks at every segment but the old head, the tail
  included. So moving into the cell the tail is about to leave ends the game.
  As a result the body never overlaps itself, not even for one tick (`Valid`).
- Food may be placed on the snake (`FoodCanLandAnywhere`).
- The arrow-key guard compares with the pending direction, not with the
  direction of the last tick. So two presses within one tick can reverse the
  snake. `HandleKeydown` only promises that one key press never reverses the
  pending direction.
- An operator pressed while an operand is stored but no operator is pending
  (for example right after `=`) keeps the stored operand and ignores the
  display (`HandleOperator`). The pending-operator test is JavaScript
  truthiness (`Truthy`), so a pending empty-string operator counts as none.
  Equals tests the operator against `null` only.

## Model

| member | source | states |
|---|---|---|
| `Snake.Opposite` | src/components/SnakeGameApp.tsx:47-59 | the direction each arrow-key guard rejects is never the direction itself |
| `Snake.OppositeInvolutive` | src/components/SnakeGameApp.tsx:47-59 | the opposite of the opposite is the direction itself, so the four guards pair the directions up |
| `Snake.Step` | src/components/SnakeGameApp.tsx:86-101 | the head's move lands on a cell sharing an edge with the old head |
| `Snake.StepInverse` | src/components/SnakeGameApp.tsx:88-101 | a step is undone by a step the opposite way, and the four directions lead to four different cells |
| `Snake.Occupies` | src/components/SnakeGameApp.tsx:109 | the `.some` test is true exactly when some segment equals the cell |
| `Snake.Collides` | src/components/SnakeGameApp.tsx:104-110 | game over exactly when the new head is off the 15×15 grid or equals a segment other than the old head, the tail included |
| `Snake.FoodCell` | src/components/SnakeGameApp.tsx:23-29 | a food cell drawn from two random numbers in [0, 1) always lies on the grid |
| `Snake.FoodCanLandAnywhere` | src/components/SnakeGameApp.tsx:23-29 | every grid cell can be drawn as food, snake cells included |
| `Snake.AdvanceKeepsWellFormed` | src/components/SnakeGameApp.tsx:104-129 | a non-colliding move of the head keeps the body on the grid, connected and free of overlaps, whether it grows or drops its last segment |
| `Snake.KeyDirection` | src/components/SnakeGameApp.tsx:47-59 | exactly the four arrow keys name a direction |
| `Snake.Game.constructor` | src/components/SnakeGameApp.tsx:14-19 | the mounted game: snake [(5,5)], food (10,10), heading right, not over, paused, score 0; the invariant holds |
| `Snake.Game.PlaceFood` | src/components/SnakeGameApp.tsx:23-29 | only the food changes, to the drawn in-grid cell |
| `Snake.Game.ResetGame` | src/components/SnakeGameApp.tsx:31-38 | snake [(5,5)], heading right, not over, score 0, food redrawn, paused; the invariant holds again |
| `Snake.Game.TogglePause` | src/components/SnakeGameApp.tsx:40-42 | flips `isPaused` and nothing else |
| `Snake.Game.HandleKeydown` | src/components/SnakeGameApp.tsx:45-64 | the direction never becomes the opposite of the pending one; it changes only to the pressed arrow, and to it whenever that is not the opposite; Space flips the pause; snake, food, score and game-over never change |
| `Snake.Game.Tick` | src/components/SnakeGameApp.tsx:71-129 | no change while paused or over; otherwise the head moves one cell; a collision sets game over and leaves snake, food and score as they were; eating keeps the whole old body behind the new head, adds one point and redraws the food; any other move drops the last segment; the score never decreases and the length grows exactly when the score does; the invariant is kept |
| `Todos.AsciiWhitespace` | src/components/TodoApp.tsx:33 | among ASCII characters, exactly tab, line feed, vertical tab, form feed, carriage return and space count as the white space `trim` strips |
| `Todos.TrimStart` | src/components/TodoApp.tsx:33 | the result is a suffix that starts with a visible character, and everything cut off is white space |
| `Todos.TrimEnd` | src/components/TodoApp.tsx:33 | the result is a prefix that ends with a visible character, and everything cut off is white space |
| `Todos.Trim` | src/components/TodoApp.tsx:33 | the trimmed text is the part of the text between an all-white-space prefix and an all-white-space suffix, and neither starts nor ends with white space |
| `Todos.TrimEmptyIffBlank` | src/components/TodoApp.tsx:33 | a text trims to "" exactly when it consists of white space only |
| `Todos.Toggle` | src/components/TodoApp.tsx:49-53 | same length, order, ids and texts; `completed` flips on exactly the items whose id matches |
| `Todos.ToggleTwice` | src/components/TodoApp.tsx:49-53 | toggling the same id twice restores the list |
| `Todos.ToggleAbsent` | src/components/TodoApp.tsx:49-53 | toggling an id no item carries leaves the list unchanged |
| `Todos.Delete` | src/components/TodoApp.tsx:55-57 | no item with the id is left; every other item is kept as often as it occurred and in its original order |
| `Todos.DeleteAbsent` | src/components/TodoApp.tsx:55-57 | deleting an id no item carries leaves the list unchanged (so deleting twice is deleting once) |
| `Todos.DeleteAfterToggle` | src/components/TodoApp.tsx:49-57 | deleting an id after toggling it gives the same list as deleting it directly |
| `Todos.TodoList.constructor` | src/components/TodoApp.tsx:15-25 | without saved data: the three default items and an empty input |
| `Todos.TodoList.SetNewTodo` | src/components/TodoApp.tsx:79 | the input field takes the typed value; the list is unchanged |
| `Todos.TodoList.AddTodo` | src/components/TodoApp.tsx:32-47 | a blank input changes nothing; otherwise exactly one item (given id, untrimmed text, not completed) is appended after the unchanged earlier items and the input is cleared |
| `Todos.TodoList.ToggleTodo` | src/components/TodoApp.tsx:49-53 | the list becomes `Toggle` of the old list; the input is unchanged |
| `Todos.TodoList.DeleteTodo` | src/components/TodoApp.tsx:55-65 | the list becomes `Delete` of the old list; the input is unchanged |
| `Todos.TodoList.HandleKeyDown` | src/components/TodoApp.tsx:67-71 | only Enter adds the typed item, as `AddTodo` does; any other key changes nothing |
| `Calculator.Calculate` | src/components/CalculatorApp.tsx:54-67 | an operator symbol other than + - * / yields the second operand |
| `Calculator.Truthy` | src/components/CalculatorApp.tsx:44 | the `else if (operator)` test: `null` and the empty string are falsy, every other operator string is truthy |
| `Calculator.Count` | src/components/CalculatorApp.tsx:27 | a character occurs zero times exactly when the string does not include it |
| `Calculator.Calculator.constructor` | src/components/CalculatorApp.tsx:6-9 | display "0", no operand, no operator, not waiting; the invariant holds |
| `Calculator.Calculator.InputDigit` | src/components/CalculatorApp.tsx:11-18 | while waiting the digit replaces the display and waiting ends; otherwise a lone "0" is replaced and any other display is extended by the digit; operand and operator are unchanged |
| `Calculator.Calculator.InputDecimal` | src/components/CalculatorApp.tsx:20-30 | while waiting the display becomes "0." and waiting ends; otherwise a display holding '.' is unchanged and any other gets '.' appended; afterwards the display holds a '.', and exactly one if it held at most one before |
| `Calculator.Calculator.ClearDisplay` | src/components/CalculatorApp.tsx:32-37 | restores exactly the initial state |
| `Calculator.Calculator.HandleOperator` | src/components/CalculatorApp.tsx:39-52 | always ends waiting, with the new operator pending; with no stored operand it stores the display's value and leaves the display; with a stored operand and a truthy pending operator it stores and shows the result; otherwise operand and display stay |
| `Calculator.Calculator.PerformCalculation` | src/components/CalculatorApp.tsx:69-80 | with no stored operand or no pending operator nothing changes; otherwise the result is stored and shown, no operator is pending and nothing is awaited |
| `Clock.ToDecimal` | src/components/DigitalClockApp.tsx:33 | the decimal rendering is a non-empty string of digits with no leading zero, one digit exactly below 10 |
| `Clock.DecimalRoundTrip` | src/components/DigitalClockApp.tsx:33 | reading the decimal rendering back gives the number |
| `Clock.PadStart` | src/components/DigitalClockApp.tsx:33 | the padded string has the requested width (or keeps a longer string), ends with the original and is filled in front |
| `Clock.TwoDigits` | src/components/DigitalClockApp.tsx:24-33 | `toString().padStart(2, '0')` yields at least two characters, all decimal digits |
| `Clock.TwoDigitsExact` | src/components/DigitalClockApp.tsx:24-33 | below 100, a number is shown as exactly its tens digit and its units digit |
| `Clock.TwoDigitsRoundTrip` | src/components/DigitalClockApp.tsx:24-33 | below 100, the two-digit field reads back as the number |
| `Clock.DisplayHour` | src/components/DigitalClockApp.tsx:28-31 | in 12-hour mode the shown hour is in 1..12 and agrees with the hour modulo 12; in 24-hour mode it is the hour |
| `Clock.TwelveHourCases` | src/components/DigitalClockApp.tsx:30 | hour 0 shows as 12, hours 1 to 12 as themselves, hours 13 to 23 as the hour minus 12 |
| `Clock.Period` | src/components/DigitalClockApp.tsx:26-31 | in 12-hour mode " PM" exactly from noon on and " AM" exactly before; in 24-hour mode no period |
| `Clock.TwelveHourRoundTrip` | src/components/DigitalClockApp.tsx:28-31 | the 12-hour hour and its period together give back the hour of the day |
| `Clock.JoinLayout` | src/components/DigitalClockApp.tsx:34 | in the joined string HH:MM[:SS]period each field sits at its fixed position and reads back as its value |
| `Clock.FormatTime` | src/components/DigitalClockApp.tsx:22-35 | `formatTime`: at least HH:MM, plus three characters for ":SS" when seconds are shown, begins with two digits and ends with the period (" AM"/" PM" in 12-hour mode, nothing in 24-hour mode) |
| `Clock.FormatTimeLayout` | src/components/DigitalClockApp.tsx:22-35 | a formatted time is HH:MM, then ":SS" exactly when seconds are shown, then the period (3 characters in 12-hour mode, none in 24-hour); every field is two digits reading as the value it shows |
| `Clock.FormatTimeInjective` | src/components/DigitalClockApp.tsx:22-35 | two times of day that format alike agree in hour and minute, and in second when seconds are shown |
| `Clock.ThemeClass` | src/components/DigitalClockApp.tsx:37-48 | every theme other than dark, light and colorful gets the default class, and only those |
| `Clock.ThemeClassInjective` | src/components/DigitalClockApp.tsx:37-48 | the four themes get four different classes |
| `Clock.ToggleFormat` | src/components/DigitalClockApp.tsx:72 | the format switches between 12-hour and 24-hour; theme and seconds setting are unchanged |
| `Clock.ToggleSeconds` | src/components/DigitalClockApp.tsx:80 | the seconds setting flips; format and theme are unchanged |
| `Clock.SetTheme` | src/components/DigitalClockApp.tsx:91 | the chosen theme is selected; format and seconds setting are unchanged |
| `Clock.TogglesInvolutive` | src/components/DigitalClockApp.tsx:72-80 | pressing either toggle twice restores the settings |

## Left out

- Snake rendering: canvas drawing and the cell size in pixels, used only to draw.
- Snake timing: the `requestAnimationFrame` chain, the 200 ms throttle, and the effect that cancels the frame callback on pause or game over. One tick is one call of `Game.Tick`. Its guard on `isPaused`/`isGameOver` stands for the cancelled loop. So the model does not capture ticks that run on a state captured before the last update.
- `Math.random`: the two random numbers are parameters in [0, 1). `FoodCell` then does the `Math.floor(r * 15)` step.
- The toast notifications of the snake game and the todo list: they only display text.
- The todo list's `localStorage` load and save and its JSON encoding. The model starts from the default list. A malformed saved list is not modelled.
- `Date.now()` ids: the id is a parameter of `AddTodo` and `HandleKeyDown`, and ids are not assumed unique.
- Calculator numerics: `parseFloat`, double `+ - * /` (division by zero included) and `String(number)` are uninterpreted functions in `FloatOps`.
- Calculator.Calculate: the contract pins down only the default branch, because the four operations it selects are uninterpreted.
- Clock I/O: `new Date`, the one-second `setInterval` and the locale date line. Hours, minutes and seconds are parameters.
- Clock.ThemeClass: the theme is a four-valued type, so the `default:` branch can only be reached by the default theme itself. A string outside the TypeScript union is not modelled.
- The cursor-tracking widget (floating-point trigonometry), the contact form, and the routing, navigation, animation and static pages.
