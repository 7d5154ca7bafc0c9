# Basketball tracker: game-state engine

A model of the scorekeeping engine of a single-page basketball stat tracker. It keeps a
roster of players and a newest-first event log. Each player has a display name, a stat
ledger (a counter per label), a substitution clock (the instant of the current sub-in,
if on court) and accumulated minutes. The handlers record a stat, sub a player in or
out, add, remove or rename a player. Recording a made shot also bumps its attempt
counter and its points.

Modules:

- `Ledger` (`ledger.dfy`): counters, the made-shot rule table (FG Made → FG Attempt, +2
  Points; 3PT Made → 3PT Attempt, +3; FT Made → FT Attempt, +1), `Record` (what
  `updateStat` does to a ledger) and the scoring invariants. The invariants are
  attempts ≥ makes, and Points = 2·FG Made + 3·3PT Made + FT Made.
- `Players` (`players.dfy`): the `Player`, `Event` and `LogEntry` records, and the
  substitution clock as functions on one player.
- `Roster` (`roster.dfy`): appending a default player, removing by position, and the
  default names "Player n".
- `Decimal` (`decimal.dfy`): decimal rendering of the number in a default name.
- `Tracker` (`tracker.dfy`): class `BasketballTracker`, which holds `players` and `log`.
  Its handler methods reassign `players` and, when they log, `log`, as the component's
  state setters do.
- `Optional` (`optional.dfy`): `Option`, for the `number | null` sub-in time.

Inputs from outside the engine are parameters:

- `now: int` is the wall clock in milliseconds (`Date.now()`).
- `time: string` is the display timestamp (`toLocaleTimeString()`), kept opaque.

Minutes are exact `real`s: a stint adds `(now − since) / 60000`.

Behaviour of the code that shapes the model:

- Recording a stat, subbing in or out, and renaming at a bad index all throw in the
  code, so these handlers require `0 <= i < |players|`. `RemovePlayer` accepts any
  index, as its filter does.
- Sub-in is logged too (page.tsx:82), so `Tracker.Session` ends with three entries.
- The code subtracts clock readings without clamping, so `SubbedOut` promises
  `minutes` does not decrease only when `now >= subInTime`.
- The code applies derived stats through three inline branches, not a rule table.
  The branches test mutually exclusive labels, so `RuleFor` writes them as one
  if-chain. `Record` bumps the recorded counter, then applies the branch that fires.
  `RuleForIsTableLookup` proves that the branches agree with the table `Rules`.
- The code gives players no stable identity beyond their position, and neither does the
  model.

## Model

| member | source | states |
|---|---|---|
| `Ledger.Bump` | basketball-tracker/app/page.tsx:49-52 | adding k to a counter creates it from 0 when absent, adds exactly k to it, and leaves every other counter unchanged |
| `Ledger.RuleForIsTableLookup` | basketball-tracker/app/page.tsx:48-67 | the three inline made-shot branches (FG Made: FG Attempt, 2 points; 3PT Made: 3PT Attempt, 3; FT Made: FT Attempt, 1; anything else: no rule) agree, for every stat, with a lookup in the rule table |
| `Ledger.RuleForMade` | basketball-tracker/app/page.tsx:48-67 | each rule of the table is the one its made label triggers |
| `Ledger.Record` | basketball-tracker/app/page.tsx:41-67 | recording a stat raises every counter by exactly what the rule table dictates: +1 on the stat, and for a made shot +1 on its attempt and its point value on Points; no other counter moves; the created keys are the stat and the rule's secondary counters |
| `Ledger.RecordKeepsNonNegative` | basketball-tracker/app/page.tsx:41-67 | recording never makes a counter negative |
| `Ledger.RecordKeepsConsistent` | basketball-tracker/app/page.tsx:27-67 | from a ledger satisfying attempts ≥ makes and the Points formula, recording a stat keeps both exactly when the stat is not "Points" (which the recorder accepts like any string) |
| `Ledger.StatTypesExcludePoints` | basketball-tracker/app/page.tsx:27-39 | none of the offered stat buttons is "Points", so button presses keep the scoring invariants |
| `Ledger.RecordAllKeepsConsistent` | basketball-tracker/app/page.tsx:41-67 | any run of recordings that never names "Points" keeps the scoring invariants |
| `Ledger.DeltaOfMake` | basketball-tracker/app/page.tsx:48-67 | by the rule table, recording a rule's made stat adds 1 to the make counter, 1 to its attempt counter and its point value to Points |
| `Ledger.RepeatedMake` | basketball-tracker/app/page.tsx:48-67 | recording a made stat n times adds n makes, n attempts and n times the point value |
| `Ledger.FirstFieldGoal` | basketball-tracker/app/page.tsx:41-53 | a first FG Made on an empty ledger yields exactly {FG Made: 1, FG Attempt: 1, Points: 2} |
| `Players.RecordedKeys` | basketball-tracker/app/page.tsx:41-67 | after recording, the player's counters are exactly the old ones plus the recorded stat and, for a made shot, its attempt counter and Points |
| `Players.Recorded` | basketball-tracker/app/page.tsx:41-67 | recording changes only the player's ledger, by the rule table's increments, and keeps the player well formed |
| `Players.SubbedIn` | basketball-tracker/app/page.tsx:75-84 | after sub-in the player is on court; an off-court player's sub-in time becomes now; an on-court player is unchanged (the timer is not reset); name, stats and minutes never change |
| `Players.SubbedOut` | basketball-tracker/app/page.tsx:86-97 | after sub-out the player is off court; an on-court player gains (now − subInTime) ms as minutes, which never lowers minutes when now ≥ subInTime; an off-court player is unchanged |
| `Players.Stint` | basketball-tracker/app/page.tsx:75-97 | sub-in at t0 then sub-out at t1 returns an off-court player to the same record with (t1 − t0)/60000 minutes added |
| `Players.StintExamples` | basketball-tracker/app/page.tsx:86-97 | a 60000 ms stint adds exactly 1.0 minute and a 90000 ms stint exactly 1.5 |
| `Decimal.DecimalString` | basketball-tracker/app/page.tsx:100 | the number in a default name is a non-empty digit string with no leading zero |
| `Decimal.ParseDecimalString` | basketball-tracker/app/page.tsx:100 | reading the digits back gives the number again |
| `Decimal.DecimalStringInjective` | basketball-tracker/app/page.tsx:100 | two numbers have the same rendering exactly when they are equal |
| `Roster.Added` | basketball-tracker/app/page.tsx:99-101 | adding keeps the existing players in place and appends one fresh player (empty ledger, off court, 0 minutes) named "Player " + (old length + 1) |
| `Roster.Without` | basketball-tracker/app/page.tsx:103-106 | filtering out position k leaves the other players in order when k is in range (one fewer), and the identical roster otherwise |
| `Roster.RemoveUndoesAdd` | basketball-tracker/app/page.tsx:99-106 | removing the player just added restores the roster |
| `Roster.InitialRosterHasDefaultNames` | basketball-tracker/app/page.tsx:20-23 | the starting roster's names are the default names of their positions |
| `Roster.AddedKeepsDefaultNames` | basketball-tracker/app/page.tsx:99-101 | adding keeps every name the default of its position |
| `Roster.DefaultNameInjective` | basketball-tracker/app/page.tsx:100 | default names of different positions differ |
| `Roster.DefaultNamesDistinct` | basketball-tracker/app/page.tsx:99-101 | while all names are defaults, no two players share a name |
| `Roster.DefaultNameCollision` | basketball-tracker/app/page.tsx:99-106 | after removing the first starting player and adding one, two players are both named "Player 2" |
| `Tracker.BasketballTracker.constructor` | basketball-tracker/app/page.tsx:20-25 | a session starts with "Player 1" and "Player 2" (fresh) and an empty log |
| `Tracker.BasketballTracker.UpdateStat` | basketball-tracker/app/page.tsx:41-73 | only player i's ledger changes, as `Record` says; exactly one entry (player's current name, the stat, the time) is prepended, older entries unchanged and in order; the scoring invariants survive any stat other than "Points" |
| `Tracker.BasketballTracker.HandleSubIn` | basketball-tracker/app/page.tsx:75-84 | an off-court player goes on court at now and one "Sub In" entry is prepended; for an on-court player neither roster nor log changes |
| `Tracker.BasketballTracker.HandleSubOut` | basketball-tracker/app/page.tsx:86-97 | an on-court player goes off court with the stint's minutes added and one entry carrying the elapsed minutes is prepended; for an off-court player neither roster nor log changes |
| `Tracker.BasketballTracker.AddPlayer` | basketball-tracker/app/page.tsx:99-101 | the roster becomes `Added` of the old one; the log is unchanged |
| `Tracker.BasketballTracker.RemovePlayer` | basketball-tracker/app/page.tsx:103-106 | the roster becomes `Without` the index; the log is unchanged |
| `Tracker.BasketballTracker.Rename` | basketball-tracker/app/page.tsx:126-130 | only player i's name changes; the log, and so the names its entries captured, is unchanged |
| `Tracker.Session` | basketball-tracker/app/page.tsx:41-106 | after a made field goal, a 90-second stint and removing the second player: one player with {FG Made: 1, FG Attempt: 1, Points: 2}, off court with 1.5 minutes; the log is Sub Out (+1.5), Sub In, FG Made, newest first |

All handlers keep every player well formed: counters are non-negative and a stored
sub-in time is positive. Every handler other than `UpdateStat` preserves the scoring
invariants unconditionally.

## Left out

- Rendering, styling and the tap animation (page.tsx:108-210). This includes the
  display-only split of stats into shot lines and other stats, and the on-court dot.
- React state plumbing. Each setter is an assignment to the class field. Batched or
  stale-closure updates are not modelled; handlers run one at a time on the latest state.
- Players are values, not shared objects. The source mutates the `Player` objects that
  the old and new arrays share. That aliasing cannot be seen once the setter has run.
- Display formatting. The timestamp is an opaque `time` string. The sub-out label's
  `toFixed(1)` text is replaced by the exact elapsed minutes, carried in `SubOut(elapsed)`.
- The wall clock. It is the parameter `now`.
- Floating point and number width. Minutes are exact reals, not doubles. Counters are
  unbounded integers, not doubles that lose exactness above 2^53.
- Log labels. The source writes the string "Sub In" for both a sub-in and a stat that
  happens to be labelled "Sub In". The model keeps the two apart as different `Event`s.
- Inherited object keys. Stats are a plain map. Labels that name inherited properties
  of a JavaScript object (such as "constructor") are not modelled.
- Tracker.BasketballTracker.HandleSubIn: requires `now > 0`. The source tests the
  sub-in time for truthiness, so a reading of 0 would leave the player looking off court.
- Tracker.BasketballTracker.UpdateStat: requires an index in range, as do HandleSubIn,
  HandleSubOut and Rename. The source throws on a bad index there; it has no no-op path.
