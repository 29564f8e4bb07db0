# czch portfolio: snake, terminal and presence card, in Dafny

This project models the three pieces of logic in the czch portfolio single-page
application that are more than markup:

- **The snake easter egg** (`components/SnakeGame.js`). A 20 x 20 grid. The snake
  is a list of cells, head first, with one food cell. There is a committed
  `direction` and a buffered `nextDirection`, a score and a best score, and the
  states idle / playing / paused / gameOver. `snake.dfy` holds class
  `Snake.SnakeGame`. Its fields are the component's React state cells and each
  handler is a method: `ResetGame`, `StartGame`, `PlayAgain`, `PauseGame`,
  `CloseGame`, `KeyPress`, `TouchStart`, `TouchEnd` and one `Tick` of the game
  loop. The random food choice is `GenerateFood`, a rejection loop over a
  sequence of `Math.random()` draws passed in as an oracle. `Valid()` is the
  invariant every method keeps:
  - the snake is on the grid with no cell twice;
  - the food is on the grid;
  - the score is a multiple of 10 and never above the best score;
  - the buffered direction never reverses the committed one.

  Three scenario methods replay the source's edge cases. `TailChaseScenario`
  runs into the cell the tail is leaving, which ends the game. `FoodUnderHeadScenario`
  shows new food landing on the new head. `WallScenario` leaves the grid.
- **The terminal easter egg** (`components/Terminal.js`). A submitted line is
  trimmed and split on single spaces. Its first word, lower-cased, selects one of
  nine commands. `terminal.dfy` gives the switch as the pure function
  `Terminal.Dispatch` / `Terminal.Interpret`, returning an `Effect`. Class
  `Terminal.Console` holds `input`, `history`, `isMinimized` and `terminalColor`.
  Its `ExecuteCommand` and `HandleSubmit` apply that effect in place. The colour
  tables `getColorClass` and `getTerminalTheme` are map lookups with the black
  entry as the default.
- **The presence card** (`utils/lanyard.js`, `components/DiscordStatus.js`). The
  status colour, the activity icon priority chain, the `m:ss` clock, the clamped
  Spotify progress and the custom status are pure functions. So are the
  default-avatar index and the game-row filter. `DiscordStatus.Poll` is the reducer
  that one poll outcome applies to the card's `discordData` / `hasError` /
  `loading` cells. The outcome is a success envelope, a non-success envelope or
  a thrown fetch. The current time (`Date.now()`) is always a parameter.
  `components/DiscordStatus.js` has its own copies of `getStatusColor`,
  `getActivityIcon` and `formatTime` (lines 47-76). They are textually identical to
  those of `utils/lanyard.js`, so module `Lanyard` models them once.

`js_builtins.dfy` (module `JsBuiltins`) models the JavaScript built-ins these
components rely on:
- `trim`, `split(' ')`, `join`, `toLowerCase`, `includes` and `padStart`;
- `Number.prototype.toString` and `parseInt`;
- `Math.floor` and the truncating `%`.

It also proves the facts about them that the command language needs. The main one
is that `split(' ')` followed by `join(' ')` gives back the input.

`undefined` and `null` are both `None` of `JsBuiltins.Option`. A NaN result is
`None` too.

Two behaviours of the code are kept as written:
- A reader might expect the collision test to use the moved body; the game-over
  test compares the new head with the whole snake before the move,
  including the tail cell that the move is about to vacate
  (`components/SnakeGame.js:157`).
- `generateFood` avoids only the snake its callback captured, which is the snake
  from before the tick. So new food can appear on the new head
  (`components/SnakeGame.js:108`, `175`), although one might expect food never
  to share a cell with the snake. The model follows the code: it proves the food
  avoids the pre-tick snake, and `FoodUnderHeadScenario` shows the food landing on
  the head.

## Model

| member | source | states |
|---|---|---|
| `Snake.KeyDirection` | components/SnakeGame.js:243-258 | exactly the twelve mapped keys (arrows, WASD in both cases) give a direction, and it is a unit step |
| `Snake.SwipeClassification` | components/SnakeGame.js:296-314 | a swipe picks right/left/down/up exactly when it travels more than 30 along the axis that moved further, a tie going to the vertical axis; otherwise it picks nothing |
| `Snake.InputRefusesOnlyReversal` | components/SnakeGame.js:258-262 | for unit requests and the directions the game uses, the keyboard test (both components negated) and the swipe test (one component negated) both refuse exactly the reversal of the committed direction (the keyboard half holds by the test's own form; the swipe half is the substantive one) |
| `Snake.Candidate` | components/SnakeGame.js:104-107 | `Math.floor(r * GRID_COUNT)` on draws in [0, 1) is a cell on the grid |
| `Snake.FirstFreeDraw` | components/SnakeGame.js:103-108 | the draw the rejection loop stops at is the first whose cell is off the snake; every earlier draw lands on the snake |
| `Snake.GenerateFood` | components/SnakeGame.js:101-110 | the loop returns the first drawn cell not on the captured snake; that cell is on the grid and off that snake |
| `Snake.DrawFor` | components/SnakeGame.js:104-107 | every grid cell is the cell of some pair of draws in [0, 1) |
| `Snake.FreeCellGivesFreeDraw` | components/SnakeGame.js:103-108 | a cell on the grid and off the snake gives an oracle on which the rejection loop stops |
| `Snake.SnakeGame.EatingTickCanBeFed` | components/SnakeGame.js:164-175 | when the next tick eats, the eaten food cell itself is a free draw, so the oracle precondition of `Tick` can always be met and food placement never loops forever |
| `Snake.PrependKeepsDistinct` | components/SnakeGame.js:155-177 | prepending a head that is on the grid and not on the snake keeps the snake duplicate-free and on the grid, whether the tail is then popped or kept |
| `Snake.SnakeGame.constructor` | components/SnakeGame.js:5-16 | the initial state: idle, score 0, best score from storage, snake [(10,10)], food (15,15), no motion |
| `Snake.SnakeGame.ResetGame` | components/SnakeGame.js:112-121 | snake [(10,10)], food (15,10), both directions (0,0), score 0, idle; best score untouched |
| `Snake.SnakeGame.StartGame` | components/SnakeGame.js:123-130 | from idle a reset game heading (1,0); from any other state only the state changes, to playing; the touch origin and best score stay |
| `Snake.SnakeGame.PlayAgain` | components/SnakeGame.js:132-137 | always a reset game heading (1,0), playing; best score and touch origin kept |
| `Snake.SnakeGame.PauseGame` | components/SnakeGame.js:139-141 | the state becomes paused and nothing else changes |
| `Snake.SnakeGame.CloseGame` | components/SnakeGame.js:317-324 | the state becomes idle and nothing else changes |
| `Snake.SnakeGame.KeyPress` | components/SnakeGame.js:240-262 | while playing, a mapped key that does not reverse the committed direction becomes the next direction; otherwise nothing changes; the next direction is never a reversal |
| `Snake.SnakeGame.TouchStart` | components/SnakeGame.js:274-283 | while playing, the touch origin is recorded; otherwise nothing changes |
| `Snake.SnakeGame.TouchEnd` | components/SnakeGame.js:285-315 | while playing, a long enough swipe that does not reverse the committed direction becomes the next direction; otherwise nothing changes |
| `Snake.SnakeGame.Tick` | components/SnakeGame.js:143-182 | not playing: nothing changes; otherwise the buffered direction is committed (never a reversal). A move off the grid or onto any pre-move cell, tail included, ends the game with the snake unchanged. A plain move prepends the head and drops the tail. Eating grows the snake by one, adds 10 to the score, raises the best score only when beaten, and places food off the pre-move snake. `Valid()` is kept |
| `JsBuiltins.TrimBlankIffAllSpace` | components/Terminal.js:260 | a line trims to nothing exactly when every character is white space |
| `JsBuiltins.JoinSplit` | components/Terminal.js:174-176 | joining the pieces of `split(' ')` with a single space gives back the line |
| `JsBuiltins.SplitTailJoin` | components/Terminal.js:227-228 | `args.join(' ')` is exactly the text after the first space |
| `JsBuiltins.ToLower` | components/Terminal.js:175 | lower-casing keeps the length and maps each letter A-Z to a-z, leaving other characters alone |
| `Terminal.Dispatch` | components/Terminal.js:180-255 | the switch only ever sets one of the nine valid colours, and its single printed entry is an output or an error |
| `Terminal.Interpret` | components/Terminal.js:172-176 | the trimmed line's first piece, lower-cased, selects the case; the same guarantees as the switch |
| `Terminal.CommandOfKnownWords` | components/Terminal.js:180-250 | exactly the nine command words select a case of their own |
| `Terminal.SilentIffBlank` | components/Terminal.js:250-254 | only the empty line falls through the default case without printing |
| `Terminal.HistoryGrowsByCommand` | components/Terminal.js:178-255 | `clear` leaves exactly the banner; every other command keeps the old history as a prefix, appends the echo of the trimmed line, then at most one output or error entry |
| `Terminal.CommandWordIgnoresCase` | components/Terminal.js:175 | two lines whose first words differ only in letter case do the same thing |
| `Terminal.DispatchIgnoresLine` | components/Terminal.js:250-253 | beyond the command word and arguments, the line matters only through being empty or not |
| `Terminal.ColorCommand` | components/Terminal.js:204-213 | `color <name>` lower-cases the name and sets the theme exactly when it is one of the nine; otherwise one error entry names the lower-cased argument |
| `Terminal.ColorWithoutArgument` | components/Terminal.js:214-216 | `color` alone yields the missing-parameter error |
| `Terminal.EchoCommand` | components/Terminal.js:227-233 | `echo` followed by a space prints everything after that space exactly as typed; its missing-text half applies only to a line ending in that space, which a trimmed line never is |
| `Terminal.EchoWithoutText` | components/Terminal.js:227-232 | a bare `echo`, in any letter case, has no arguments and yields the missing-text error, the only way a submitted line reaches it |
| `Terminal.UnknownCommand` | components/Terminal.js:250-253 | a non-empty unknown command word yields one error naming the lower-cased word |
| `Terminal.ColorClass` | components/Terminal.js:97-110 | each of the nine accepted colours has its own class; the black class is returned exactly for black and for any name outside the nine |
| `Terminal.TerminalTheme` | components/Terminal.js:112-170 | each accepted colour gets its own theme, with dark text exactly for white; any other name gets the black theme, with white text |
| `Terminal.TablesCoverValidColors` | components/Terminal.js:207 | both tables know exactly the nine colours `color` accepts, so an accepted colour never falls back to black; only white uses dark text |
| `Terminal.Console.constructor` | components/Terminal.js:5-10 | empty input, history holding only the banner, not minimised, colour black |
| `Terminal.Console.SetInput` | components/Terminal.js:355 | the input field takes the typed value; nothing else changes |
| `Terminal.Console.ExecuteCommand` | components/Terminal.js:172-256 | history, colour and minimised flag become what `Interpret` of the trimmed line prescribes; the close callback fires exactly for `close`; the colour stays a valid one |
| `Terminal.Console.Apply` | components/Terminal.js:180-255 | each case's state update: one appended entry, a new colour with its confirmation, the banner alone, minimising, or a close request |
| `Terminal.Console.HandleSubmit` | components/Terminal.js:258-264 | a blank line changes nothing; any other line is executed and the input cleared |
| `Lanyard.StatusColor` | utils/lanyard.js:14-21 | online, idle and dnd map to green, yellow and red, and every other value, absent included, to gray (both directions) |
| `Lanyard.ActivityIcon` | utils/lanyard.js:23-37 | the first matching rule in the order spotify, roblox, visual studio code, app asset; null exactly when no name rule matches and the application id or large image is missing |
| `Lanyard.ActivityIconIgnoresCase` | utils/lanyard.js:24-30 | the name rules ignore letter case |
| `Lanyard.ActivityIconFallsBackToAsset` | utils/lanyard.js:33-35 | with no name rule matching, the icon is the app-asset URL of the large image |
| `Lanyard.FormatWholeSeconds` | utils/lanyard.js:39-43 | for whole n >= 0 the clock is n div 60, a colon, n mod 60 padded to two digits |
| `Lanyard.FormatTimeFloors` | utils/lanyard.js:39-43 | for a non-negative number of seconds only its whole part is shown |
| `Lanyard.TwoDigitSeconds` | utils/lanyard.js:42 | seconds below 60 are written as exactly two digits |
| `Lanyard.ParseClockParts` | utils/lanyard.js:42 | decimal minutes, a colon and two digits below 60 read back as their value |
| `Lanyard.ParseClockOfParts` | utils/lanyard.js:39-43 | the clock text of q minutes and r < 60 seconds reads back as 60 q + r |
| `Lanyard.ParseClockOfClock` | utils/lanyard.js:39-43 | the clock text of n div 60 and n mod 60 reads back as n |
| `Lanyard.FormatTimeRoundTrip` | utils/lanyard.js:39-43 | parsing `formatTime(n)` gives back n for every n >= 0, so the seconds field is always below 60 |
| `Lanyard.FormatElapsedIsWholeSeconds` | utils/lanyard.js:45-48 | `formatElapsedTime(start)` at time now is the clock of floor((now - start) / 1000), which reads back as that number for a start in the past |
| `Lanyard.FloorMillis` | utils/lanyard.js:46 | `Math.floor(ms / 1000)` is integer division rounding towards minus infinity |
| `Lanyard.ClampedPercent` | utils/lanyard.js:53-55 | the clamped percentage lies in [0, 100]: 0 before the start, 100 from the end on, the exact share in between; NaN only for 0 / 0 |
| `Lanyard.ClampedPercentMonotone` | utils/lanyard.js:53-55 | a later moment never shows less progress on the same track |
| `Lanyard.SpotifyProgress` | utils/lanyard.js:50-56 | 0 when start or end is missing or zero; otherwise exactly the clamped share of `ClampedPercent` (NaN, as None, when start, end and now coincide); in [0, 100] whenever it is a number |
| `Lanyard.SpotifyProgressOfTrack` | utils/lanyard.js:50-56 | for end > start the progress is a number in [0, 100], 0 until the start, 100 from the end on, and non-decreasing in time |
| `DiscordStatus.Poll` | components/DiscordStatus.js:18-39 | a success envelope adopts its payload and clears the error; a non-success envelope or a thrown fetch sets the error and keeps the data; loading is over after any outcome |
| `DiscordStatus.PlaceholderAfterPoll` | components/DiscordStatus.js:89 | after a poll the placeholder shows exactly when the poll did not bring a presence record |
| `DiscordStatus.PlaceholderUntilRecord` | components/DiscordStatus.js:4-7 | the card starts with no data, no error and loading, and shows the placeholder until the latest poll has brought a presence record |
| `DiscordStatus.PollAllAppend` | components/DiscordStatus.js:41-42 | running polls one after another is applying `Poll` to the result of the earlier ones |
| `DiscordStatus.PollsKeepLastPayload` | components/DiscordStatus.js:17-45 | after any run of polls the data is the last successful payload, the error flag reflects only the latest poll, and loading is over |
| `DiscordStatus.FirstOfKind` | components/DiscordStatus.js:79 | `find` returns the first activity of the given type, or nothing when none has it |
| `DiscordStatus.CustomStatus` | components/DiscordStatus.js:78-87 | the state of the first type-4 activity; null when offline or absent status, no such activity, or a missing or empty state |
| `DiscordStatus.GameRows` | components/DiscordStatus.js:195 | the rows are exactly the activities of type 0 |
| `DiscordStatus.GameRowsAppend` | components/DiscordStatus.js:153 | the filter keeps the games in their original order |
| `DiscordStatus.DefaultAvatarIndex` | components/DiscordStatus.js:113 | `parseInt(discriminator or '0') % 5` with JavaScript's truncating remainder lies strictly between -5 and 5 |
| `DiscordStatus.DefaultAvatarIndexMissing` | components/DiscordStatus.js:113 | a missing or empty discriminator selects avatar 0 |
| `DiscordStatus.DefaultAvatarIndexOfDigits` | components/DiscordStatus.js:113 | a discriminator of digits selects its value mod 5, in [0, 5) |
| `DiscordStatus.DefaultAvatarUrl` | components/DiscordStatus.js:111-114 | without an avatar, and with a missing or all-digit discriminator, the image is one of the five defaults 0.png to 4.png |
| `DiscordStatus.ProgressWidth` | components/DiscordStatus.js:183 | the progress-bar width is clamped to [0, 100] whenever it is a number |
| `DiscordStatus.ProgressWidthAgrees` | components/DiscordStatus.js:183 | with both timestamps present and non-zero, the bar agrees with `getSpotifyProgress` |
| `DiscordStatus.ElapsedLabelAgrees` | components/DiscordStatus.js:224 | for a start in the past, the card's elapsed clock is `formatElapsedTime`'s |

## Left out

- Dragging of the snake and terminal windows, and canvas drawing: these are pointer
  events, pixel positions and rendering only.
- The `setInterval` / `setTimeout` scheduling of the game loop, the poll and the
  clock. One tick or one poll is one call.
- The closing animation and the `onClose` callback of `closeGame`. The terminal's
  `onClose` is reported as the `closeRequested` result of `ExecuteCommand`. Focus
  and scrolling effects are left out.
- `localStorage`: the stored best score is the constructor's parameter, and writing
  a new best score is not modelled. `parseInt`'s NaN on unparsable stored text is
  left out.
- React's batching of state updates and stale handler closures are not
  modelled. The model assumes each handler sees the latest state. In the source
  the keydown listener is re-registered by an effect that depends on
  `gameState`, `direction` and `showGame` (`components/SnakeGame.js:239-272`), so
  between a tick and that effect's re-run the listener still tests against the
  previous `direction`, and a key pressed in that window can queue the reverse of
  the direction just committed.
- Snake.SnakeGame.KeyPress: "the next direction is never a reversal" holds only
  under the latest-state assumption above.
- Snake.SnakeGame.Tick: "a tick never reverses direction" likewise holds only
  under that assumption.
- `fetchLanyardData` and the network fetch of the status card: only the reducer
  over the abstract poll outcome is modelled.
- DiscordStatus.Poll: the source compares the payload with the current data by
  their `JSON.stringify` text; the model compares the records themselves. Either
  way, the data after a successful poll is the payload, and that is all `Poll`
  promises about it.
- JsBuiltins.ToLower: `toLowerCase` is modelled for the ASCII letters only. Other
  Unicode case mappings are left out.
- JsBuiltins.ParseInt: the `0x` hexadecimal prefix that `parseInt` accepts without
  a radix is not modelled. A discriminator is decimal text.
- Lanyard.FormatTime: it uses exact reals in place of IEEE doubles. Properties are
  proved for natural-number seconds only. Negative inputs give the same odd strings
  as JavaScript's floor and truncating remainder, but no lemma describes them.
- Lanyard.ClampedPercent: the share `(elapsed / total) * 100` is computed over
  exact reals; the source computes it in IEEE doubles, so its value may differ
  from the stated exact share by rounding. The bounds [0, 100], the clamping and
  the NaN case do not depend on rounding.
- Terminal.ColorClass: the source looks colours up on a plain JavaScript object,
  which also finds inherited prototype keys such as `constructor`; those are not
  modelled. The component only ever passes one of the nine colours.
- Terminal.TerminalTheme: the same inherited-key lookup is not modelled; the
  component only ever passes one of the nine colours.
- A timestamp of JSON `null` coerces to 0 in JavaScript arithmetic. The model
  treats every absent field as `undefined`, which gives NaN.
- The remaining view text fallbacks of the card are left out: the username
  defaulting to `czch`, the album art, the song and artist placeholders, the game
  row's fallback image and its small icon.
- `components/ParticleBackground.js`, `components/MusicPlayer.js`, `pages/index.js`,
  `components/ProjectsPage.js` and `components/Navbar.js` are not part of this
  model. They hold floating-point particle physics, an audio-element wrapper, and
  static markup with a tab variable.
