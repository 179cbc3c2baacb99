# pixi-mvc-slot in Dafny

A model of the logic under the rendering of the pixi-mvc-slot game: a five-reel,
three-row slot machine written in JavaScript on PIXI.js. The model covers:

- the easing curves and the timed interpolation routine that drive every
  animation;
- the action queue that runs the view's asynchronous `start` and `stop`
  transitions one after another;
- the event emitter;
- the win-line wire format;
- the game model (bet, board, win lines and their events);
- the reel state machine (spin-up, stop, settle, the four-slot ring and its
  texture swaps, highlight);
- the round logic of the view (board dispatch, board slicing, win
  highlighting, score, button guard, ticker).

One module per source file:

- `Easing`: `src/helper/Easing.js`.
  - The closures are a datatype `Curve`, evaluated by `Apply`.
- `Coroutine`: `src/helper/Coroutine.js`.
  - The generator is a class `Routine` whose suspended state is an explicit
    `Phase`.
  - `Resume(now)` gets the clock reading as a parameter.
  - It returns the calls it made: `action(v)` or the callback.
- `ActionQueue`: `src/helper/ActionQueue.js`.
  - A class over a sequence of actions, with ghost bookkeeping of what has
    started and finished.
  - A pure replay function over the signals enqueue, resolve and reject is the
    specification.
- `Observable`: `src/helper/Observable.js`.
  - A map from event names to duplicate-free listener sequences.
- `WinLine`: `src/model/WinLine.js`.
  - `deserialize`, with a serializer as its inverse.
- `Game`: `src/model/Game.js`.
  - A class whose setters log the events they emit.
- `ReelComponent`: `src/component/ReelComponent.js`.
  - A class with the reel's fields and its routine.
  - The effect of each routine call is applied in `Update`.
- `GameView`: `src/view/GameView.js`.
  - A class holding the queue, `isRunning`, the win lines, the routine set and
    the calls made on the reels.
  - Each promise the view waits on is a method that models its settling.
- `JsValue`: the JavaScript built-ins the parsing and slicing rely on.
  - `+s`, `s - 1`, `split` and `slice`.

Behaviour the model makes explicit:

- `backOut(k)` reads `t - 1` because of the pre-decrement, and it mirrors
  `backIn(k)`.
- The stop of a reel overshoots its final position, and the start winds back
  first.
- `dropState` publishes `{}`, not `[]`, as the win lines. If a win line of the
  reply cannot be deserialized, `{}` stays:
  - the view's `winHandler` then throws on `[...this.winLines]`;
  - the running `stop` rejects;
  - the action queue is blocked for good;
  - `isRunning` is never cleared, so the buttons stay dead.
- An empty board string parses to the one cell `-1`, not to an empty board.

## Model

| member | source | states |
|---|---|---|
| Easing.BackInAt | src/helper/Easing.js:11-13 | `backIn(k)` is 0 at 0 and 1 at 1 for every `k` |
| Easing.BackOutAt | src/helper/Easing.js:7-9 | `backOut(k)`, evaluated at `t - 1` after the pre-decrement, is 0 at 0 and 1 at 1 for every `k` |
| Easing.Apply | src/helper/Easing.js:3-13 | `linear()` is the identity; every curve starts at 0 and ends at 1 |
| Easing.BackOutMirrorsBackIn | src/helper/Easing.js:7-13 | `backOut(k)(t) == 1 - backIn(k)(1 - t)` for all `k`, `t` |
| Easing.BackOutOvershoots | src/helper/Easing.js:7-9 | `backOut(1)(t) > 1` on (1/2, 1): the settle bounce |
| Easing.BackInUndershoots | src/helper/Easing.js:11-13 | `backIn(1)(t) < 0` on (0, 1/2): the wind-up |
| Coroutine.Lerp | src/helper/Coroutine.js:30-32 | `lerp(a,b,0) == a`, `lerp(a,b,1) == b`, `lerp(a,a,t) == a` |
| Coroutine.LerpBeyondTarget | src/helper/Coroutine.js:30-32 | an eased value above 1 carries the interpolation past `b` |
| Coroutine.Configure | src/helper/Coroutine.js:12-15 | a non-function third argument becomes the duration and no callback is kept |
| Coroutine.Progress | src/helper/Coroutine.js:19-21 | inside the time window the easing argument is in [0, 1), and 0 at the start time |
| Coroutine.Finale | src/helper/Coroutine.js:26-27 | the last resume calls `action(easing(1))`, then the callback if there is one |
| Coroutine.Step | src/helper/Coroutine.js:10-28 | the first resume samples the start and calls `action(easing(0))`; with duration ≤ 0, or once `now` reaches the end, it makes the final calls and is done; in between it calls `action(easing(progress))`; a done routine calls nothing; a callback comes only as `[action(1), callback]` |
| Coroutine.RunConsistent | src/helper/Coroutine.js:10-28 | however it is resumed, the calls made so far fit the phase: none before start, no callback while running, the final calls exactly once when done |
| Coroutine.CallbackOnceAfterFinalAction | src/helper/Coroutine.js:20-27 | the callback fires at most once, only when done, as the last call, right after `action(easing(1))` |
| Coroutine.Routine.constructor | src/helper/Coroutine.js:10-15 | creating the generator runs nothing |
| Coroutine.Routine.Resume | src/helper/Coroutine.js:16-27 | one `next()` moves the phase and appends the calls as `Step` says |
| JsValue.MinusOne | src/model/Game.js:83 | `v - 1` on a coerced number: NaN stays NaN, otherwise one less |
| JsValue.ToNumber | src/model/WinLine.js:28 | `+s` is a number exactly for a string of decimal digits, never negative, and 0 for `""` |
| JsValue.DecimalRoundTrip | src/model/WinLine.js:28 | `+` of the decimal digits of `n` is `n` |
| JsValue.Split | src/model/WinLine.js:27 | `split(c)` yields one part more than there are `c`s, none containing `c` |
| JsValue.JoinSplit | src/model/WinLine.js:27 | joining the parts of a split gives the string back |
| JsValue.SplitJoin | src/model/WinLine.js:27 | splitting a join of separator-free parts gives the parts back |
| JsValue.SplitFree | src/model/WinLine.js:27 | a string without the separator splits into itself |
| JsValue.SplitPrefix | src/model/WinLine.js:27 | a separator-free head is the first part |
| JsValue.SplitConcat | src/model/WinLine.js:27 | splitting `a + c + b` gives the parts of `a` followed by those of `b` |
| JsValue.Slice | src/view/GameView.js:374 | `slice` clamps both bounds to the length and yields the cells between them |
| WinLine.ToNumbers | src/model/WinLine.js:28 | `map(v => +v)` coerces each field in place |
| WinLine.Deserialize | src/model/WinLine.js:26-29 | succeeds iff there are at least two `~`; the index count is the number of commas of the third field plus one |
| WinLine.DeserializeFields | src/model/WinLine.js:19-29 | three `~`-free fields give the number, the win and the coerced indexes, stored as given |
| WinLine.EmptyBoardFieldIsZero | src/model/WinLine.js:28 | an empty index field yields `[0]` |
| WinLine.TrailingFieldsIgnored | src/model/WinLine.js:27 | fields after the third are ignored |
| WinLine.DeserializeSerialize | src/model/WinLine.js:26-29 | `deserialize` inverts the wire form for natural numbers |
| ActionQueue.ReplaySound | src/helper/ActionQueue.js:20-44 | every enqueued action is finished or queued in order; the started ones are the finished ones plus the head; only a running head can reject |
| ActionQueue.Step | src/helper/ActionQueue.js:20-44 | an enqueue appends and starts the action iff the queue was empty; a resolve removes the running head into the finished ones; a reject changes nothing but blocks a non-empty queue; a blocked queue stays blocked and finishes nothing |
| ActionQueue.Replay | src/helper/ActionQueue.js:20-44 | replaying signals on a blocked queue keeps it blocked with nothing more finished |
| ActionQueue.AtMostOneRunning | src/helper/ActionQueue.js:20-44 | at most one action runs, it is the head, and actions start in FIFO order |
| ActionQueue.RejectBlocksForever | src/helper/ActionQueue.js:30-36 | after a rejection nothing starts or finishes again; enqueues only grow the queue |
| ActionQueue.ActionQueue.constructor | src/helper/ActionQueue.js:12-14 | a new queue is empty |
| ActionQueue.ActionQueue.Next | src/helper/ActionQueue.js:41-44 | `next()` runs the head, and nothing on an empty queue |
| ActionQueue.ActionQueue.Enqueue | src/helper/ActionQueue.js:20-24 | appends; starts the action only if the queue was empty, leaving a running head alone |
| ActionQueue.ActionQueue.Complete | src/helper/ActionQueue.js:30-36 | resolution removes exactly the head and starts the new head, if any |
| ActionQueue.ActionQueue.Fail | src/helper/ActionQueue.js:30-36 | a rejection leaves the head in place and blocks the queue |
| Observable.Register | src/helper/Observable.js:9-12 | the set for the name is created if missing and holds `fn`; old listeners stay in order; other names are untouched |
| Observable.RegisterKeepsDistinct | src/helper/Observable.js:9-12 | listener sets never hold a listener twice |
| Observable.RegisterIdempotent | src/helper/Observable.js:11 | registering the same listener twice is registering it once |
| Observable.Observable.constructor | src/helper/Observable.js:7 | no listeners at first |
| Observable.Observable.On | src/helper/Observable.js:9-12 | `on` is `Register` on the map and keeps the sets duplicate-free |
| Observable.Observable.Emit | src/helper/Observable.js:14-18 | calls every listener of the name once, in registration order, with the value; none for an unknown name |
| Game.BetStaysInRange | src/model/Game.js:55-61 | from a bet in [1, 10], including the initial 1, any presses keep it in [1, 10] |
| Game.IncreasesSaturate | src/model/Game.js:55-57 | `n` increases give `min(bet + n, 10)` |
| Game.DecreasesSaturate | src/model/Game.js:59-61 | `n` decreases give `max(bet - n, 1)` |
| Game.Increased | src/model/Game.js:56 | `Math.min(bet + 1, 10)`: one more, capped at 10 |
| Game.Decreased | src/model/Game.js:60 | `Math.max(bet - 1, 1)`: one less, floored at 1 |
| Game.ParseBoard | src/model/Game.js:83 | one cell per comma-separated field, each the field's value minus 1, in order |
| Game.ParseBoardOfNumbers | src/model/Game.js:83 | a board of 1-based symbol numbers parses to the 0-based indexes |
| Game.EmptyBoardStringIsOneCell | src/model/Game.js:83 | `""` parses to `[-1]` |
| Game.DeserializeAll | src/model/Game.js:84 | the lines in order, or a TypeError if any entry lacks a third field |
| Game.Game.constructor | src/model/Game.js:18-46 | bet 1, win 0, empty board and win lines |
| Game.Game.SetBet | src/model/Game.js:73-76 | stores the bet, then emits `betChange` with it; nothing else changes |
| Game.Game.IncreaseBet | src/model/Game.js:55-57 | `setBet(min(bet + 1, 10))` |
| Game.Game.DecreaseBet | src/model/Game.js:59-61 | `setBet(max(bet - 1, 1))` |
| Game.Game.UpdateBoard | src/model/Game.js:63-66 | stores the board, then emits `boardChange` |
| Game.Game.UpdateWinLines | src/model/Game.js:68-71 | stores the win lines, then emits `winLinesChange` |
| Game.Game.DropState | src/model/Game.js:49-53 | win 0, emits an empty board, then `{}` as the win lines |
| Game.Game.MakeBet | src/model/Game.js:78-85 | nothing for a bet ≤ 0; otherwise drops the state, stores the win, emits the parsed board, then the deserialized lines, or throws and leaves `{}` |
| ReelComponent.Ceil | src/component/ReelComponent.js:119 | `Math.ceil`: the least integer not below `x` |
| ReelComponent.JsRem | src/component/ReelComponent.js:162 | JavaScript `x % 4` on reals: the remainder has the sign of `x`, is below 4 in size, and differs from `x` by a whole multiple of 4 |
| ReelComponent.SlotOffset | src/component/ReelComponent.js:162 | `((position + i) % 4) * size - size`: for `position + i ≥ 0` the slot lies in [-size, 3·size); below 0, where `%` keeps the sign, it lies in (-5·size, -size] |
| ReelComponent.SlotOffsetsDistinct | src/component/ReelComponent.js:162 | no two slots share an offset, whatever the position |
| ReelComponent.Swaps | src/component/ReelComponent.js:158-168 | the slots that wrap round (new offset < 0, old > size), in slot order |
| ReelComponent.Lookup | src/component/ReelComponent.js:177 | `symbolTextures[k]` is a texture exactly for an index of the list, else `undefined` |
| ReelComponent.SlotsAdvancedStep | src/component/ReelComponent.js:159-167 | redrawing slot `n` extends the loop invariant to `n + 1` slots; when every earlier wrap fetched a texture, the first `n + 1` did too iff slot `n` did not wrap or fetched a defined texture |
| ReelComponent.MissingPersists | src/component/ReelComponent.js:158-167 | once a wrap among the first `n` slots fetched `undefined`, so did one among any more slots |
| ReelComponent.SlotsReached | src/component/ReelComponent.js:158-167 | how many slots the loop redraws before `updateTexture(undefined)` throws: at most all, and all when no wrap fetches `undefined` |
| ReelComponent.ReachedStops | src/component/ReelComponent.js:163-166 | the loop stops at the first slot whose wrap fetches `undefined` |
| ReelComponent.LoopOutcome | src/component/ReelComponent.js:158-168 | at the loop's exit the redraw is complete with every slot at its offset, or it stopped after the slot whose texture was `undefined` |
| ReelComponent.ActionPose | src/component/ReelComponent.js:105-195 | each routine action moves only what it animates; at `t = 1` spin-up reaches full speed, the approach reaches its target, the settle rests on the finish |
| ReelComponent.Finish | src/component/ReelComponent.js:119 | the finish is a whole position at least 3 and under 4 ahead |
| ReelComponent.Target | src/component/ReelComponent.js:117-121 | the approach ends `speed² / (2·acceleration)` before the finish, the distance the settle covers |
| ReelComponent.ApproachMovesForward | src/component/ReelComponent.js:117-121 | up to full speed the target lies ahead and the approach lasts a positive time at constant speed |
| ReelComponent.SortByOffset | src/component/ReelComponent.js:138 | a permutation of the slots sorted by offset, largest first |
| ReelComponent.InsertDescending | src/component/ReelComponent.js:138 | inserting a slot into slots sorted largest offset first keeps them sorted |
| ReelComponent.InsertPermutes | src/component/ReelComponent.js:138 | inserting adds exactly the new slot to the multiset |
| ReelComponent.HighlightTargets | src/component/ReelComponent.js:138 | `slice(0, 3).reverse()` of the sorted slots: three slot numbers, each a slot of the reel |
| ReelComponent.HighlightTargetsAreTopThree | src/component/ReelComponent.js:138 | the targets are three distinct slots in ascending offset, and the slot left out lies no lower than any |
| ReelComponent.InsertDistinct | src/component/ReelComponent.js:138 | inserting keeps slot numbers distinct and adds just the new one |
| ReelComponent.SortDistinct | src/component/ReelComponent.js:138 | sorting distinct slots yields the same slots, each once |
| ReelComponent.LightDarkPartition | src/component/ReelComponent.js:139-140 | lit and dimmed symbols partition the targets by their flags |
| ReelComponent.Light | src/component/ReelComponent.js:139 | `filter((sym, i) => highlight[i])` keeps only targets |
| ReelComponent.Dark | src/component/ReelComponent.js:140 | `filter((sym, i) => !highlight[i])` keeps only targets |
| ReelComponent.Reel.constructor | src/component/ReelComponent.js:70-93 | stopped at 0, slots one size apart with random textures |
| ReelComponent.Reel.NextSymbolTexture | src/component/ReelComponent.js:175-178 | takes the front of `symbolSeq`, or a random texture once it is empty |
| ReelComponent.Reel.UpdateSymbols | src/component/ReelComponent.js:153-169 | the slots are redrawn in order, each at its offset; each slot that wrapped gets the next texture in slot order, the others keep theirs; `ok` is false iff a wrap fetched `undefined`, whose `updateTexture` throws: the loop stops after that slot, which keeps its old texture though the symbol was taken; with `ok` every slot is at `Offsets` |
| ReelComponent.Reel.UpdateSlot | src/component/ReelComponent.js:159-167 | one turn of that loop: the slot moves to its offset and, if it wrapped, fetches the next texture; `ok` is false exactly when that texture is `undefined` and `updateTexture` throws |
| ReelComponent.Reel.AnimateStop | src/component/ReelComponent.js:186-200 | a `backOut(1)` routine from the current pose to the finish at rest |
| ReelComponent.Reel.StartSpin | src/component/ReelComponent.js:101-108 | `Starting`; replaces any routine with a `backIn(1)` spin-up over `maxSpeed / acceleration` s |
| ReelComponent.Reel.StopSpin | src/component/ReelComponent.js:110-130 | symbols queued reversed, `Stopping`, a linear approach to the braking point before the finish |
| ReelComponent.Reel.Highlight | src/component/ReelComponent.js:136-148 | lit and dimmed targets by the flags; a 1.2 s routine that resolves the highlight |
| ReelComponent.Reel.Update | src/component/ReelComponent.js:95-99 | resumes the routine and applies its calls; moves by `speed·dt` only while starting; the finished spin-up clears the routine at full speed; the finished approach starts the settle; the finished settle rests on the finish, clears the routine and resolves the stop; then the slots are redrawn as `UpdateSymbols` says, `ok` false when that throws |
| ReelComponent.Reel.Advance | src/component/ReelComponent.js:96-97 | the first two statements of `update`: the routine and pose as in `Update`, before the redraw |
| ReelComponent.Reel.ResumeRoutine | src/component/ReelComponent.js:96 | `routine.next()` with the effect of its calls: the pose the action sets; the finished spin-up, approach and settle as in `Update` |
| ReelComponent.PickTexture | src/component/ReelComponent.js:206-208 | any texture of the list, `undefined` for an empty list |
| ReelComponent.Reverse | src/component/ReelComponent.js:111 | `[...symbols].reverse()`: same length, element `k` is element `|s| - 1 - k` of the input |
| GameView.Dispatch | src/view/GameView.js:335-341 | an empty board enqueues `start`, any other `stop(board)` |
| GameView.ReelSlice | src/view/GameView.js:374 | reel `i` gets at most three cells, cells `3i ..` of the board |
| GameView.SlicesTileBoard | src/view/GameView.js:372-375 | the reels' slices are the board's first cells, each once, in order |
| GameView.StopDealsBoard | src/view/GameView.js:372-375 | a board of up to 15 cells is dealt out whole; later cells reach no reel |
| GameView.StartCalls | src/view/GameView.js:358-361 | `start` makes every reel spin, in order |
| GameView.StopCalls | src/view/GameView.js:372-375 | `stop` hands reel `i` its slice |
| GameView.CollectWinIndexes | src/view/GameView.js:392-397 | the set holds exactly the indexes of the win lines |
| GameView.ReelHighlightFlags | src/view/GameView.js:411-412 | reel `r` gets three flags; flag `j` is set iff cell `3r + j` is a win index |
| GameView.HighlightMap | src/view/GameView.js:411 | the 15-cell map: cell `i` is set iff `i` is a win index |
| GameView.HighlightCalls | src/view/GameView.js:412 | reel `i` is highlighted with its slice of the map |
| GameView.MaxWin | src/view/GameView.js:399 | NaN iff some win is NaN, otherwise the largest win |
| GameView.Display | src/view/GameView.js:401 | the score counts from 0 to the win |
| GameView.FinishedCountShowsWin | src/view/GameView.js:400-402 | once the count-up finishes, the score shows the maximum win |
| GameView.KeepMembers | src/view/GameView.js:124-126 | a routine stays in the set iff its callback did not fire |
| GameView.KeepDistinct | src/view/GameView.js:124-126 | the routine set stays duplicate-free |
| GameView.GameView.constructor | src/view/GameView.js:108-128 | an empty queue and routine set, `isRunning` falsy, win lines undefined |
| GameView.GameView.RunStart | src/view/GameView.js:355-363 | sets `isRunning` and spins all reels |
| GameView.GameView.RunStop | src/view/GameView.js:369-375 | stops each reel on its slice |
| GameView.GameView.WinLinesChange | src/view/GameView.js:347-349 | stores the win lines |
| GameView.GameView.BoardChange | src/view/GameView.js:335-341 | enqueues the dispatched action; it runs at once only on an empty queue |
| GameView.GameView.Perform | src/view/GameView.js:355-375 | running `start` sets `isRunning` and spins the reels; running `stop(board)` stops them on their slices; running nothing changes nothing |
| GameView.GameView.StartDone | src/view/GameView.js:362 | when `start` resolves the next action runs; `isRunning` stays set |
| GameView.GameView.ReelsStopped | src/view/GameView.js:376-412 | when the stops resolve: win lines that are not an array make `winHandler` throw, which blocks the queue and keeps `isRunning`; no lines ends the round; otherwise the count-up to the max win and the zoom are added after the old routines and the win cells are highlighted; the win lines are unchanged |
| GameView.GameView.EndRound | src/view/GameView.js:378-380 | `isRunning` is cleared, the running action resolves, and `isRunning` is set again only if the next action is `start` |
| GameView.GameView.ShowWin | src/view/GameView.js:391-412 | the count-up to the max win and the zoom join the routine set unstarted, after the old routines, and each reel is told its slice of the win-cell map |
| GameView.GameView.AddWinRoutines | src/view/GameView.js:399-409 | two new routines, 800 ms linear count-up and 1200 ms linear zoom, are appended with their purposes; the old ones stay in order |
| GameView.GameView.HighlightsDone | src/view/GameView.js:378-380 | after the highlights `isRunning` is cleared and the queue moves on |
| GameView.GameView.Press | src/view/GameView.js:303-319 | a button emits its request iff no round is running |
| GameView.GameView.Tick | src/view/GameView.js:124-126 | every routine is resumed once, in order; a finished one leaves the set; the set stays valid |
| GameView.ResumeEach | src/view/GameView.js:125 | the ticker loop: each routine resumed as `Step` says; the score as the count-up wrote it |

## Left out

- Rendering, blur, masks, text styles, sounds, asset loading; `SymbolComponent`, `ButtonComponent`, `GameController` and `App` are not part of this model.
- `Easing.sin` and the `Math.pow` brightness and alpha curves: transcendental, so the highlight brightness and the zoom are not modelled, only their routines.
- IEEE-754 arithmetic: positions, speeds and easing values are reals; `toFixed(0)` of the score text is not modelled.
- `Date.now()` is the `now` parameter of each resume; `Math.random` is a choice of any index of the texture list.
- `setTimeout`: `start` starts reel `i` after `i · 80` ms, but `RunStart` records every `startSpin` at once; `stop`'s 80 ms stagger, the delay in `stopSpin` and the reel-stop sound are not modelled either. `StopSpin` models the moment its delay has run out, and `StartDone` the timer of `start`.
- `Game.makeRequest` (fetch, retries, mock fallback): `MakeBet` receives the decoded reply.
- `Queue.js` is not part of this model: its queue is a plain FIFO sequence.
- The game's `emit` calls are recorded in an event log. Which listeners they reach is what `Observable.Observable.Emit` states; the inheritance from `Observable` is not modelled.
- The view's calls on the reels are recorded as `ReelCall`s and not applied to `Reel` objects. Promise settling is a method call from outside (`StartDone`, `ReelsStopped`, `HighlightsDone`).
- JsValue.ToNumber: only the empty string and decimal digit strings coerce to numbers; signs, spaces, fractions, exponents and hex, which `+s` also accepts, give NaN here.
- ReelComponent.Reel.StopSpin: requires a nonzero speed. At speed 0 the source divides by zero into an infinite duration, which reals cannot express.
- ReelComponent.ApproachMovesForward: stated for speeds above 0 and up to the maximum. A stop during the `backIn(1)` wind-up can find the speed at 0 or below it, where the source's duration is infinite or negative.
- What the PIXI ticker does after `update` throws on an `undefined` texture is not modelled: `Update` reports it as `ok` false.
