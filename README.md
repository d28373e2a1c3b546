# Valentine mini-games, modelled in Dafny

This project models the game logic of a Valentine web page. The page has three mini-games and a progress store that links them:

- **Tic-tac-toe** (`xox.dfy`, module `Xox`). The player's mark is ❤️ (`Player`) and the opponent's is 💔 (`Ai`). `checkWinner` scans the eight winning lines in table order. The opponent's `aiMove` picks a random empty cell 40% of the time. Otherwise it runs `minimax`, an exhaustive search that writes hypothetical marks on the board and undoes each one. It then keeps the first empty cell with the best score. `handleClick` plays one turn: the player's move, a terminal check, the opponent's move and another check. A win schedules the stage-complete call and a loss or draw schedules a restart.
- **Memory match** (`tilematch.dfy`, module `TileMatch`). `initGame` deals 16 shuffled cards, two per photo. `handleFlip` turns over at most two cards and counts a move when the second card turns. It then schedules one of two callbacks: the match callback marks both cards matched, and the mismatch callback turns them face down again. Once every card is matched, the stage-complete call is scheduled. `formatTime` prints the elapsed seconds as `m:ss`.
- **Quiz** (`quiz.dfy`, module `Quiz`). There are five questions. A right answer scores one point and, after a pause, moves to the next question or finishes the quiz. A wrong answer shakes the card and counts a try. From the second wrong try on, a hint is shown.
- **Progress store** (`love.dfy`, module `Love`). This is one record. Each completed stage overwrites its progress (33, 66, 100) and stage number. It also appends that stage's secret message and shows it. `dismissSecret` closes the shown secret.

Each component's state is a class whose methods change its fields:

- `Xox.XoxGame` holds the board, message and game-over flag.
- `TileMatch.TileMatchGame` holds the cards, selection, moves, timer and started flag.
- `Quiz.QuizGame` holds the question number, score, tries, hint, shake, correct flag, selected option and the pending timeout.

The `minimax` and `aiMove` searches work in place on an `array`.

Each method is tied to a pure function of the old state: `Turn`, `Flip`/`MarkMatched`/`HideCards`, `Answer`/`Fire`. The game rules are proved as lemmas about those functions and as class invariants (`Valid`). The progress store is pure record updates, so it is a datatype with functions.

Things the components get from outside are parameters:

- each `Math.random()` value is a real in [0, 1);
- the random shuffle is a permutation;
- the store's completion flags are booleans.

A delayed callback (`setTimeout`) is a separate step that the caller runs later. `HandleClick` and `HandleFlip` return the callback they scheduled. The quiz keeps its single pending timeout in a field, and `FireTimer` runs it.

## Model

| member | source | states |
|---|---|---|
| Xox.CheckWinnerSpec | src/components/XOXGame.tsx:8-19 | `checkWinner` returns no mark exactly when none of the eight lines holds three equal marks; otherwise it returns the mark of the first such line in table order |
| Xox.WinnerFromSpec | src/components/XOXGame.tsx:14-19 | the scan from line `k` on finds nothing iff no later line is won, and otherwise returns the first won line's mark |
| Xox.WinnerIsMover | src/components/XOXGame.tsx:64-86 | a mark placed on a board without a winner can only make that mark's owner win |
| Xox.ScoreAtLeaf | src/components/XOXGame.tsx:21-25 | the search scores an opponent win +10 and a player win −10, whatever the side to move; a full board without a winner scores 0; the win check comes first |
| Xox.ScoreAtInnerNode | src/components/XOXGame.tsx:26-34 | on a non-terminal board the score is the maximum (opponent to move) or minimum (player to move) over the empty cells' child scores, and it is attained by some child |
| Xox.ScoreValues | src/components/XOXGame.tsx:21-35 | every score is −10, 0 or 10 |
| Xox.PlaceShrinks | src/components/XOXGame.tsx:26-31 | each hypothetical placement shrinks the set of empty cells, which is why the search terminates |
| Xox.Score | src/components/XOXGame.tsx:21-35 | the value `minimax` computes lies between −10 and 10 |
| Xox.Children | src/components/XOXGame.tsx:26-33 | the `reduce` pushes one score per empty cell among the first `n`, each between −10 and 10 |
| Xox.ChildScore | src/components/XOXGame.tsx:27-30 | the score pushed for empty cell `k`, the search of the board with `k` filled by the side to move, lies between −10 and 10 |
| Xox.Max | src/components/XOXGame.tsx:34 | `Math.max(...scores)` is an element of the scores and no element exceeds it |
| Xox.Min | src/components/XOXGame.tsx:34 | `Math.min(...scores)` is an element of the scores and no element is below it |
| Xox.Minimax | src/components/XOXGame.tsx:21-35 | the in-place search returns the score of the board it got and leaves the array exactly as it found it |
| Xox.TryCell | src/components/XOXGame.tsx:27-31 | writing a mark, searching and clearing the cell returns that child's score and restores the array |
| Xox.EmptyCells | src/components/XOXGame.tsx:39 | the `map`/`filter` lists only empty cells, and at least one whenever the board is not full |
| Xox.EmptyCellsSpec | src/components/XOXGame.tsx:39 | the list of empty cells is strictly increasing and holds every empty index |
| Xox.Pick | src/components/XOXGame.tsx:40 | `Math.floor(Math.random() * n)` is an index below `n` |
| Xox.RandomMove | src/components/XOXGame.tsx:39-40 | the random branch returns an empty cell |
| Xox.SearchPosIsFirstMax | src/components/XOXGame.tsx:41-47 | after `j` rounds of the loop the held candidate has the largest score so far and every earlier candidate scores strictly less (the strict `>`) |
| Xox.SearchMove | src/components/XOXGame.tsx:41-48 | the cell the search loop ends on is empty |
| Xox.SearchMoveIsFirstBest | src/components/XOXGame.tsx:41-48 | the search branch returns the lowest empty index whose score is the maximum over all empty cells |
| Xox.AiPick | src/components/XOXGame.tsx:37-49 | on a board with an empty cell both branches return an empty cell |
| Xox.AiMove | src/components/XOXGame.tsx:37-49 | the in-place `aiMove` returns the choice `AiPick` makes for the same random values, an empty cell, and restores the array |
| Xox.Turn | src/components/XOXGame.tsx:63-101 | an accepted click leaves cell `i` holding the player's mark |
| Xox.TurnChanges | src/components/XOXGame.tsx:65-85 | besides cell `i` a turn changes at most one cell, which was empty and now holds the opponent's mark |
| Xox.TurnCounts | src/components/XOXGame.tsx:63-101 | from a level board a turn adds exactly one player mark and at most one opponent mark, the second one exactly when the player's move did not end the game |
| Xox.EmptyBoardFacts | src/components/XOXGame.tsx:53 | the starting board has no marks and no winner |
| Xox.XoxGame.constructor | src/components/XOXGame.tsx:53-55 | mounting gives an empty board, no message, the game running, and the invariant |
| Xox.XoxGame.Reset | src/components/XOXGame.tsx:57-61 | `reset` sets the empty board, the empty message and `gameOver` false regardless of the old state, so two resets equal one |
| Xox.XoxGame.HandleClick | src/components/XOXGame.tsx:63-102 | a click on a taken cell, after the game ended, or once the stage is completed changes nothing; otherwise the board becomes `Turn(...)`. `completeXOX` is scheduled exactly on a player win and a restart exactly on any other end. The invariant stays: the player has as many marks as the opponent or one more, and `gameOver` holds exactly on a win, a loss or a full board |
| TileMatch.CardImagesHasEightPhotos | src/components/TileMatchGame.tsx:14-23 | the photo table has the eight entries the deck needs |
| TileMatch.PairCard | src/components/TileMatchGame.tsx:44-47 | card `id` gets pair id `id / 2`, that photo's source and caption, and starts face down and unmatched |
| TileMatch.FlatPairs | src/components/TileMatchGame.tsx:44-47 | the `flatMap` gives each photo two consecutive cards with ids `2i`, `2i+1` and pair id `i` |
| TileMatch.Pairs | src/components/TileMatchGame.tsx:44-47 | the unshuffled deck has 16 cards and card `k` is `PairCard(k)` |
| TileMatch.Deal | src/components/TileMatchGame.tsx:44-47 | the shuffled deck holds at position `k` the card `perm[k]` of the unshuffled one |
| TileMatch.DealIsDealt | src/components/TileMatchGame.tsx:43-53 | a dealt deck has 16 cards with distinct ids 0..15, pair id `id / 2`, none flipped or matched |
| TileMatch.PairsTwice | src/components/TileMatchGame.tsx:44-47 | in a dealt deck every pair id 0..7 is on exactly two positions and no other pair id occurs |
| TileMatch.PairPositionsAre | src/components/TileMatchGame.tsx:44-47 | the two cards of pair `p` are the ones with ids `2p` and `2p+1`, at distinct positions |
| TileMatch.TileMatchGame.constructor | src/components/TileMatchGame.tsx:43-55 | mounting runs `initGame`: the dealt deck, nothing selected, moves and timer 0, not started |
| TileMatch.TileMatchGame.InitGame | src/components/TileMatchGame.tsx:43-53 | `initGame` deals a fresh deck from the photo table and clears selection, moves, timer and started |
| TileMatch.FlipCard | src/components/TileMatchGame.tsx:71 | the flip's `map` sets card `idx` face up and leaves every other card, and every card's id, pair and photo, unchanged |
| TileMatch.Flip | src/components/TileMatchGame.tsx:65-99 | past the guards (stage not completed, fewer than two selected, card neither flipped nor matched) a flip turns `idx` face up, appends it to the selection and starts the clock; otherwise nothing changes |
| TileMatch.FlipCountsMove | src/components/TileMatchGame.tsx:76-97 | a move is counted exactly when the selection reaches two, and exactly then a callback is scheduled: the match callback for two distinct cards of one pair, the mismatch callback otherwise |
| TileMatch.FlipKeepsSelection | src/components/TileMatchGame.tsx:66-72 | after a flip the selection still holds at most two distinct face-up, unmatched cards |
| TileMatch.FlipKeepsValid | src/components/TileMatchGame.tsx:65-78 | every flip keeps the deck dealt and the selection valid |
| TileMatch.TileMatchGame.HandleFlip | src/components/TileMatchGame.tsx:65-100 | the new cards, selection and started flag are those of `Flip`, moves grow by one exactly when `Flip` counts a move, the timer is untouched, and the invariant holds |
| TileMatch.MarkMatched | src/components/TileMatchGame.tsx:82-84 | the match `map` marks cards `a` and `b` matched, keeps every other mark, so no matched card reverts |
| TileMatch.HideCards | src/components/TileMatchGame.tsx:95 | the mismatch `map` turns `a` and `b` face down and keeps every matched mark |
| TileMatch.ResolveKeepsValid | src/components/TileMatchGame.tsx:79-97 | both callbacks keep the deck dealt and leave an empty, valid selection |
| TileMatch.TileMatchGame.ResolveMatch | src/components/TileMatchGame.tsx:79-90 | the match callback sets the cards to `MarkMatched`, clears the selection, and schedules `completeTileMatch` exactly when every card is then matched |
| TileMatch.TileMatchGame.ResolveMismatch | src/components/TileMatchGame.tsx:94-97 | the mismatch callback sets the cards to `HideCards` and clears the selection |
| TileMatch.StaleMismatchStrandsCard | src/components/TileMatchGame.tsx:94-97 | a mismatch callback left over from before `initGame` empties the new selection and leaves a just-flipped card face up and unmatched outside it, so the next flip of that card is refused; it stays refused until a restart or until another pending mismatch callback names its position |
| TileMatch.TileMatchGame.Tick | src/components/TileMatchGame.tsx:58-63 | a second of the interval adds one to the timer exactly while the game is started, not completed and not all matched |
| TileMatch.NatToString | src/components/TileMatchGame.tsx:102 | the minutes are printed as decimal digits without leading zeros, one digit exactly below 10 |
| TileMatch.ParseNatToString | src/components/TileMatchGame.tsx:102 | the printed minutes read back as the number |
| TileMatch.PadStart | src/components/TileMatchGame.tsx:102 | `padStart` keeps the string as the suffix, fills the front with the pad character only, and gives the target length |
| TileMatch.TwoDigits | src/components/TileMatchGame.tsx:102 | the seconds part is exactly two digits that read back as `s % 60` |
| TileMatch.FormatTime | src/components/TileMatchGame.tsx:102 | `formatTime(s)` is the decimal minutes, a colon at the third place from the end, and two digits; the minutes read back as `floor(s / 60)` and the digits as `s % 60` |
| TileMatch.FormatTimeOneColon | src/components/TileMatchGame.tsx:102 | the colon of `formatTime` is its only colon |
| TileMatch.FormatTimeRoundTrip | src/components/TileMatchGame.tsx:102 | reading the `m:ss` text back gives `s` |
| TileMatch.FormatTimeInjective | src/components/TileMatchGame.tsx:102 | no two times print the same |
| Quiz.QuestionsWellFormed | src/components/QAGame.tsx:5-11 | the table has 5 questions of 4 options each, and every answer index is one of the options |
| Quiz.Answer | src/components/QAGame.tsx:23-52 | a click when the quiz is completed or an answer is pending changes nothing; otherwise the choice is selected and a timeout is pending. The question stays, a right answer adds exactly one to the score, and a wrong one adds one try, shakes the card and shows the hint from two tries on |
| Quiz.Fire | src/components/QAGame.tsx:32-51 | the right-answer timeout on the last question leaves the state as it is (it calls `completeQA`). On another question it moves on and resets tries, hint, correct flag and choice. The wrong-answer timeout stops the shake and clears the choice. The score never changes |
| Quiz.StartInv | src/components/QAGame.tsx:15-21 | the mounting state satisfies the quiz invariant |
| Quiz.AnswerKeepsInv | src/components/QAGame.tsx:23-52 | answering keeps the question in range, the hint iff two tries, the score equal to the passed questions plus the one just answered right, and the shake iff a wrong answer waits |
| Quiz.FireKeepsInv | src/components/QAGame.tsx:32-51 | running the pending timeout keeps the invariant |
| Quiz.ScoreIsCurrentQ | src/components/QAGame.tsx:26-42 | with no answer pending the score equals the current question number, and it never exceeds the number of questions |
| Quiz.CompletionScore | src/components/QAGame.tsx:30-34 | when `completeQA` is called, the score is the number of questions |
| Quiz.RunKeepsInv | src/components/QAGame.tsx:23-52 | any series of clicks and timeouts keeps the invariant |
| Quiz.QuizGame.constructor | src/components/QAGame.tsx:15-21 | mounting starts at question 0 with every counter and flag cleared |
| Quiz.QuizGame.HandleAnswer | src/components/QAGame.tsx:23-52 | `handleAnswer` moves the state to `Answer(...)` and keeps the invariant |
| Quiz.QuizGame.FireTimer | src/components/QAGame.tsx:32-51 | the pending timeout moves the state to `Fire(...)`; it calls `completeQA` exactly after the right answer to the last question, and then the score is the number of questions |
| Love.InitialState | src/context/LoveContext.tsx:29-37 | the store starts with progress 0, no stage completed, stage 1, no unlocked secret and none shown |
| Love.Unlock | src/context/LoveContext.tsx:45-46 | unlocking grows the secrets by exactly one, keeps the old list as a prefix, and shows the new secret |
| Love.CompleteXOX | src/context/LoveContext.tsx:39-48 | sets its flag, progress 33, stage 2, appends and shows the first secret, keeps the other flags |
| Love.CompleteTileMatch | src/context/LoveContext.tsx:50-59 | sets its flag, progress 66, stage 3, appends and shows the second secret, keeps the other flags |
| Love.CompleteQA | src/context/LoveContext.tsx:61-70 | sets its flag, progress 100, stage 4, appends and shows the third secret, keeps the other flags |
| Love.DismissSecret | src/context/LoveContext.tsx:72-74 | closes the shown secret and changes nothing else |
| Love.DismissIdempotent | src/context/LoveContext.tsx:72-74 | dismissing twice equals dismissing once |
| Love.SecretsOf | src/context/LoveContext.tsx:39-70 | the secrets a series of calls unlocks number exactly its completion calls, and each is one of the three stage secrets |
| Love.StepAppendsSecret | src/context/LoveContext.tsx:39-74 | each completion call appends its stage's secret to the list, and dismissing appends nothing |
| Love.RunAppendsSecrets | src/context/LoveContext.tsx:39-74 | after any series of calls the secret list is the old list followed by one secret per completion call, in call order |
| Love.ProgressIsLastAssigned | src/context/LoveContext.tsx:39-74 | progress and stage are assigned, not accumulated: after any series of calls they are the values of the last completion call, or unchanged if there was none |
| Love.FlagsStay | src/context/LoveContext.tsx:39-74 | a completion flag, once set, stays set |
| Love.RunKeepsActiveLatest | src/context/LoveContext.tsx:39-74 | the shown secret, if any, is always the one unlocked last |
| Love.StagesInOrder | src/context/LoveContext.tsx:29-70 | playing the stages in order from the start gives progress 0, 33, 66, 100 and stages 1 to 4, and unlocks the three secrets in order |

## Left out

- The delay lengths of the `setTimeout` calls (800, 1500, 500, 600, 900 and 1000 ms) are not modelled. Each delayed callback is a step that the caller runs whenever it likes, so callbacks that are still pending after a restart are covered too.
- `initGame` in the memory game does not cancel a match or mismatch callback that is still pending either, and the model follows the code. Such a callback then acts on the new deck: a stale mismatch callback empties the new selection and can leave a card face up, unmatched and unselected, so that the next flip on it is refused; `TileMatch.StaleMismatchStrandsCard` states this. Flips of that card stay refused until a restart or until another pending mismatch callback names its position and turns it face down. A stale match callback likewise marks two cards of the new deck matched.
- `reset` in the tic-tac-toe component does not cancel a restart or completion timeout that is still pending. The model follows the code: the caller may still run such a callback after a reset.
- `Math.random` is a parameter. The probability 0.4 of the random branch and the distribution of the shuffle have no meaning in the model, only which values lead to which choice. The shuffle (`sort` with a random comparator) can be any permutation `perm`.
- Outcome claims about the opponent's search (for example "it never loses" or "it answers the centre with a corner") are not proved, because they need the whole game tree evaluated.
- Xox.AiMove: `-Infinity`, which starts the search loop, is written as −11. Every score is −10, 0 or 10, so it plays the same part.
- TileMatch.TileMatchGame.constructor: the photo table is a constructor parameter, which `InitGame` reuses. The component always uses `CARD_IMAGES`, which is the constant `CardImages`. The photo sources are bundled image imports whose runtime URLs the bundler decides, so `CardImages` holds their asset paths instead.
- Quiz.QuizGame.constructor: the question table is a constructor parameter. The component always uses its `questions` table, which is the constant `Questions`; `Quiz.QuestionsWellFormed` shows that this table fits the constructor.
- TileMatch.TileMatchGame.Valid keeps each card's id and pair id but not its photo. That the photos never change comes from the `SameFaces` clause of `FlipCard`, `MarkMatched` and `HideCards`.
- The card field `label` is called `caption`, because `label` is a Dafny keyword.
- The interval timer of the memory game is the `Tick` step. It runs from the first flip until the stage is completed or every card is matched, as the `useEffect` and `clearInterval` calls arrange.
- The stage flags `xoxCompleted`, `tileMatchCompleted` and `qaCompleted` come from the store and are parameters of the game methods. The games report a completion by returning it rather than by calling the store. Joining the games to `Love` is the caller's part.
- Rendering, animation (`framer-motion`, the shake animation of the quiz, card flips), the React hooks and provider plumbing, and the `useLove` error outside a provider are not modelled.
- `formatTime` is modelled for non-negative whole seconds only, since the timer starts at 0 and only counts up.
