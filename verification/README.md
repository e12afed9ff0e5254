# Maze game and study backend — a Dafny model

The repository is a Halloween-themed study game. A ghost walks through a
tile maze, collects pumpkins (5 points each) and family members, flees a
witch, and stops at checkpoints that show flashcards. A small Flask
backend keeps per-player sessions, parses a notes file into flashcards,
and scores lesson and final quizzes.

This project models the deterministic core of both halves.

**The game simulation.** It exists twice, in `templates/game.js` and
`frontend/game.js`. The two copies differ only in constants, so it is
modelled once. `Entities.Config` carries the constants:

- `SpriteVariant` (templates): entities are 1.5 tiles wide, the player
  speed is 2, the enemy speed is 1, and family members carry a sprite index.
- `VectorVariant` (frontend): entities are 0.8 tiles wide, the player
  speed is 5, the enemy speed is 1.5, and there is no index.

The modules follow the program:

- `Geometry`: `RectEntity` and its overlap test.
- `Entities`: the entity constructors.
- `TileMap`: `MAP` normalisation.
- `Level`: `buildLevel`.
- `Movement`: `handleInput`/`move` and the enemy's pursuit.
- `Game`: the `game` record, `endGame`, the synchronous part of
  `showCheckpoint`, and the overlay's close button.
- `Update`: the per-frame `update`.
- `TickProperties`: what one `update` call guarantees.

Coordinates are exact `real`s. The arrow keys held during a frame are a
`Keys` value passed into `Update.Tick`. What `endGame` writes to
`localStorage` is kept as the `summary` field of the state: score, family
counts and reason.

**The backend helpers** (`backend/app.py`):

- `Flashcards`: the notes parser of `get_flashcards_for_checkpoint`. It
  works on the notes' lines, or on the error the read produced. A line is
  first classified (`Tokenize`), then a `Parser` state runs over the
  tokens. Each flush records a `Section`, which is the title and the
  buffer at that moment. `Render` turns the sections into the cards
  `flush_card` appends, so each back is computed from the same buffer.
- `Quiz`: the two question banks and the answer-checking loop they share.
- `Sessions`: the session store, `get_session`, and the state changes of
  the two quiz submissions.
- `Text`: the Python string operations these use.

Both copies of the game are covered by the same members. Where a row
cites `templates/game.js`, the matching code in `frontend/game.js` is:

| templates/game.js | frontend/game.js |
|---|---|
| 81-86 | 64-69 |
| 133-140 | 115-122 |
| 153-171 | 135-153 |
| 197-219 | 179-201 |
| 341-355 | 298-312 |
| 357-360 | 314-317 |
| 403-446 | 360-401 |
| 468-506 | 423-461 |
| 112-115 | 94-97 |

## Model

| member | source | states |
|---|---|---|
| Geometry.IntersectsSymmetric | templates/game.js:133-140 | overlap does not depend on which rectangle asks |
| Geometry.TouchingEdgesDoNotOverlap | frontend/game.js:115-122 | rectangles that only share an edge do not overlap, because all four comparisons are non-strict |
| Geometry.IntersectsIffCommonInteriorPoint | templates/game.js:133-140 | for rectangles with area, overlap holds exactly when some point lies strictly inside both |
| Entities.NewWall | templates/game.js:414-416 | a wall covers exactly the tile whose corner it is given |
| Entities.NewPumpkin | templates/game.js:248-252 | a pumpkin is half a tile square and centred in its tile |
| Entities.NewPlayer | templates/game.js:146-151 | the player has the variant's size and speed at the given corner |
| Entities.NewEnemy | templates/game.js:190-195 | the enemy has the variant's size and speed at the given corner |
| Entities.NewFamilyMember | templates/game.js:269-278 | a family member is inset a tenth of a tile, starts uncollected, and has a sprite index only in the sprite variant |
| Entities.NewCheckpoint | templates/game.js:317-323 | a checkpoint is centred at half a tile, keeps its lesson and index, and starts untriggered |
| Entities.VariantsAreValid | frontend/game.js:128-176 | both variants have positive sizes and speeds, and the enemy is slower than the player and than the 2-unit deadzone band |
| TileMap.NormalizeRow | templates/game.js:82-86 | the row has exactly COLS characters: the line's own where it has them, 'W' past its end |
| TileMap.NormalizeMap | templates/game.js:81-86 | exactly ROWS rows of COLS characters; a missing row is all 'W' and long rows are cut |
| TileMap.NormalizeMapIdempotent | frontend/game.js:64-69 | the result is a ROWS×COLS grid, and normalising it again changes nothing |
| TileMap.GridCells | templates/game.js:407-413 | the nested loops visit every grid position exactly in strict row-major order |
| Level.ScanCells | templates/game.js:404-440 | the checkpoint counter and family index always equal the number of checkpoints and family members built |
| Level.ScanWallsAndPumpkins | templates/game.js:415-420 | one wall per 'W' cell and one pumpkin per '.' cell, in scan order |
| Level.ScanFamily | templates/game.js:427-430 | the i-th family member stands on the i-th 'F' cell with index i, uncollected |
| Level.ScanCheckpoints | templates/game.js:431-435 | the i-th checkpoint stands on the i-th 'C' cell with lesson 1 and index i, untriggered |
| Level.ScanPlayerAndEnemy | templates/game.js:421-426 | the last 'P' and the last 'E' scanned win |
| Level.BuildLevel | templates/game.js:403-446 | the built game is running, not ended, at 0 points, and its checkpoints and family members carry indices 0, 1, 2, ... |
| Level.BuildLevelCheckpoints | templates/game.js:431-435 | there is one checkpoint per 'C' of the map, in row-major order, with index i and lesson 1 |
| Level.BuildLevelFamily | templates/game.js:427-430 | there is one family member per 'F' of the map, in row-major order, with index i in the sprite variant |
| Level.BuildLevelWallsAndPumpkins | templates/game.js:414-420 | walls and pumpkins match the map's 'W' and '.' cells one to one: the i-th wall or pumpkin stands on the i-th such cell in row-major order, every listed cell holds that character, and every such cell is listed |
| Level.BuildLevelPlayer | templates/game.js:421-445 | with no 'P' the player is at (TILE, TILE); otherwise it stands on the last 'P' in row-major order |
| Level.BuildLevelEnemy | frontend/game.js:380-382 | with no 'E' there is no enemy; otherwise it stands on the last 'E' in row-major order |
| Movement.MoveBox | templates/game.js:163-171 | x is kept unless the x-step hits a wall; y is then decided independently, seeing the settled x |
| Movement.MoveKeepsClear | templates/game.js:163-171 | a box that starts clear of the walls ends clear of them |
| Movement.BlockedAxisOnlyIsReverted | frontend/game.js:145-153 | a blocked x-step is undone while an unblocked y-step is kept |
| Movement.InputDelta | frontend/game.js:135-142 | each axis moves by -speed, 0 or +speed; opposite keys together cancel, and the sign follows the single key held |
| Movement.HandleInput | templates/game.js:153-161 | when paused nothing moves; otherwise only the player's box changes, by the keyed step through the walls |
| Movement.ChaseStep | templates/game.js:202-208 | each enemy axis step is exactly +speed, -speed or 0; it is 0 within the 1-unit deadzone and, for a non-zero speed, only there; otherwise it points towards the player |
| Movement.ChaseStepClosesGap | templates/game.js:202-208 | a step slower than twice the deadzone brings the centres strictly closer on that axis |
| Movement.EnemyUpdate | frontend/game.js:179-201 | while running, the enemy takes the chase step through the walls; the game has ended afterwards exactly when it had already ended or the moved enemy overlaps the player, and a fresh capture pauses the game and records a "caught" summary; nothing but the enemy and those end fields changes |
| Game.CountCollectedFull | templates/game.js:489-495 | the collected count equals the family size exactly when every member is collected |
| Game.EndGame | templates/game.js:341-355 | the first call ends and stops the game and records score, family counts and reason; later calls change nothing |
| Game.EndGameIdempotent | frontend/game.js:298-301 | ending twice equals ending once, whatever the second reason |
| Game.EndGameKeepsConsistent | templates/game.js:341-344 | ending keeps the invariant: a summary exists exactly when ended, and ended implies paused |
| Game.ShowCheckpoint | templates/game.js:357-360 | an already triggered checkpoint leaves the state exactly as it was; otherwise it becomes triggered and the game pauses; nothing else changes |
| Game.Dismiss | templates/game.js:112-115 | the close button resumes the game and changes nothing else, including the triggered flags |
| Game.DismissConsistency | frontend/game.js:94-97 | resuming keeps the invariant exactly when the game has not ended |
| Update.RemainingMembers | templates/game.js:478-485 | a pumpkin survives the pass exactly when it was there and does not overlap the player |
| Update.SweepPumpkins | templates/game.js:478-485 | the backward splice loop leaves the survivors in order, and each removal scores 5 points |
| Update.PumpkinPass | frontend/game.js:433-440 | every overlapping pumpkin is gone, the rest keep their order, and points rise by 5 per removed pumpkin |
| Update.FamilyFromSpec | templates/game.js:487-497 | a member becomes collected exactly when it overlaps; the game ends as "win" exactly when a member was collected now and all are collected |
| Update.FamilyPass | templates/game.js:487-497 | the whole family loop, stated as the flags after the pass and the win condition |
| Update.FirstTriggerableFrom | templates/game.js:499-505 | the loop with its break picks the first untriggered overlapping checkpoint, or none |
| Update.CheckpointPass | frontend/game.js:454-460 | exactly that checkpoint becomes triggered, and the game is paused exactly when one fires |
| Update.Tick | templates/game.js:468-506 | a paused tick changes nothing; a running tick leaves the player where `handleInput` moved it and the enemy where `enemy.update` then moved it; every family member overlapping the moved player is collected afterwards, and no other family flag changes; walls never change; points never fall; collected and triggered flags only go from false to true |
| TickProperties.TickPumpkins | templates/game.js:478-485 | after the moves, overlapping pumpkins are removed in order and scored, even after a capture in the same tick |
| TickProperties.TickCheckpoints | templates/game.js:499-505 | a checkpoint fires exactly when it is the first triggerable one, so at most one fires, and firing pauses the game |
| TickProperties.TickPausesOnlyForCheckpointOrEnd | templates/game.js:468-506 | a running tick leaves the game running exactly when no checkpoint fired and the game did not end, so nothing else pauses it |
| TickProperties.TickCaught | templates/game.js:216-218 | an enemy overlapping the moved player ends the game as "caught" with the score from before this tick's pumpkins |
| TickProperties.TickWin | templates/game.js:487-497 | without a capture, the tick ends the game exactly when a member was collected now and all are collected; the summary reports the full family |
| TickProperties.TickKeepsConsistent | templates/game.js:468-506 | update keeps the state-machine invariant |
| TickProperties.EndedGameIsFrozen | templates/game.js:468-469 | an ended game whose state is consistent (ended implies paused) is left unchanged by update; this lasts until the close button resumes it, which `Game.DismissConsistency` covers |
| Text.RStrip | backend/app.py:297 | the result is a prefix of the text that does not end in whitespace |
| Text.RStripRemovesOnlySpace | backend/app.py:297 | every character `rstrip` removes is whitespace |
| Text.Strip | backend/app.py:314 | the result neither starts nor ends with whitespace |
| Text.StripIsTrimmed | backend/app.py:314 | the result is a slice of the text with only whitespace before and after it |
| Text.StripAfterRStrip | backend/app.py:297-314 | stripping a right-stripped line equals stripping the line |
| Text.LStripChar | backend/app.py:334 | the result is a suffix of the text that does not start with the character |
| Text.LStripCharRemovesOnlyCh | backend/app.py:334 | every character removed is a copy of the given one |
| Flashcards.Tokenize | backend/app.py:314-338 | a line is blank, a date, a title (its stripped text) or a bullet (its cleaned text) by the loop's tests, in the loop's order |
| Flashcards.Flush | backend/app.py:303-311 | title and buffer are cleared; a section is recorded exactly when both title and buffer are non-empty |
| Flashcards.FlushEmitsCard | backend/app.py:303-311 | exactly when title and buffer are non-empty, one card is appended, with the title as front and the buffer joined by newlines and stripped as back |
| Flashcards.ParseNotes | backend/app.py:341-351 | the result is never empty; it is the parsed cards, or the single placeholder card when there are none |
| Flashcards.FlashcardsForCheckpoint | backend/app.py:285-295 | a failed read yields exactly one error card carrying the error text |
| Flashcards.DateLineSplits | backend/app.py:321-323 | a date line is a hard boundary: cards before it followed by cards after it |
| Flashcards.DateThenBulletsDropped | backend/app.py:334-337 | bullets right after a date line contribute nothing |
| Flashcards.UntitledBulletsIgnored | backend/app.py:334-337 | with no current title, bullets and blank lines leave the parser unchanged |
| Flashcards.BareTitleDropped | backend/app.py:326-330 | a title followed directly by another title yields no card |
| Flashcards.BlankLinesSkipped | backend/app.py:317-319 | blank lines anywhere in the notes change nothing: the cards are those of the notes without them |
| Flashcards.TitleBeforeTitleDropped | backend/app.py:326-330 | a title followed, after any blank lines, by another title yields no card |
| Flashcards.TitleBeforeDateDropped | backend/app.py:321-330 | a title followed, after any blank lines, by a date line yields no card |
| Flashcards.TrailingTitleDropped | backend/app.py:326-341 | a title with only blank lines after it at the end of the notes yields no card |
| Flashcards.SingleSection | backend/app.py:303-341 | one title with its bullets yields one card: the stripped title, and the cleaned bullets joined by newlines and stripped |
| Flashcards.CardFrontsAreTitles | backend/app.py:303-311 | every card's front is the non-empty stripped text of some title line |
| Flashcards.CardCountBounds | backend/app.py:303-341 | there are never more cards than title lines, nor more than bullet lines |
| Quiz.LessonQuestions | backend/app.py:353-369 | two questions with ids "q<lesson>_1" and "q<lesson>_2" and correct indices 3 and 1; the ids differ |
| Quiz.FinalQuestions | backend/app.py:387-401 | "final1" with correct index 2 and "final2" with correct index 0 |
| Quiz.Lookup | backend/app.py:374 | a found question carries the looked-up id and belongs to the bank |
| Quiz.LookupIsLastMatch | backend/app.py:374 | the lookup fails exactly when no question has the id; otherwise it finds the last question with it |
| Quiz.CheckAnswers | backend/app.py:376-384 | correct is the number of positions holding an accepted answer, and total is the number of questions |
| Quiz.CheckLessonQuizAnswers | backend/app.py:372-384 | the lesson check scores against the lesson's bank, and total is 2 |
| Quiz.CheckFinalQuizAnswers | backend/app.py:404-416 | the final check scores against the final bank, and total is 2 |
| Quiz.CountCorrectIsAcceptedIndices | backend/app.py:377-381 | the count equals the number of answers whose id is known and whose choice is that question's correct index |
| Quiz.CountCorrectAppend | backend/app.py:377-381 | the count over two lists of answers is the sum of their counts |
| Quiz.RepeatedAnswerCountsEachTime | backend/app.py:377-381 | k copies of one answer count k times if it is accepted, else 0 |
| Quiz.CorrectCanExceedTotal | backend/app.py:404-416 | three copies of the right "final1" answer score 3 against a total of 2 |
| Quiz.DistinctAnswersBoundedByQuestions | backend/app.py:377-383 | when no two answers share an id, correct is at most the number of questions |
| Quiz.LessonFullMarks | backend/app.py:353-384 | the right choice for each lesson question scores 2 |
| Sessions.NewSession | backend/app.py:16-22 | a new session starts at lesson 1 with score 0, not finished |
| Sessions.CreateSession | backend/app.py:27-30 | the new session is stored under its id and no other entry changes |
| Sessions.StartSession | backend/app.py:62-65 | num_lessons defaults to 1 when absent |
| Sessions.GetSession | backend/app.py:33-36 | lookup fails with "Invalid session_id" exactly for an unknown id, and otherwise returns the stored session |
| Sessions.ScoreLesson | backend/app.py:173-177 | score rises by 10·correct; the lesson becomes lesson+1 when lesson ≥ current, and otherwise stays; so it never decreases |
| Sessions.SubmitLessonQuiz | backend/app.py:161-184 | an unknown session is an error; otherwise only that session changes, and the reply reports its new score and lesson |
| Sessions.SubmitFinalQuiz | backend/app.py:242-260 | an unknown session is an error; otherwise score rises by 20·correct, finished is set, and won holds exactly when correct ≥ 2; repeating one right answer reaches that (see Quiz.CorrectCanExceedTotal) |
| Sessions.RepeatedAnswerWinsFinal | backend/app.py:404-416 | two copies of the right "final1" answer, with "final2" never answered, score 2 and win the final quiz |
| Sessions.WonIsSeventyPercent | backend/app.py:253 | the integer win rule holds exactly when there is a question and correct/total is at least 0.7 |
| Sessions.SubmissionsOnlyProgress | backend/app.py:173-177 | over any sequence of lesson and final submissions, for any sessions in any order of whole requests, no session loses score, goes back a lesson, becomes unfinished, or disappears |
| Sessions.OtherSessionsUntouched | backend/app.py:161-184 | submissions for other session ids leave a session exactly as it was |
| Sessions.EarlierLessonKeepsCounter | backend/app.py:176-177 | resubmitting an earlier lesson leaves the lesson counter where it is |
| Sessions.LessonsInOrder | backend/app.py:176-177 | passing lessons 1..n in order from a fresh session leaves the counter at n+1 |

## Left out

- Canvas drawing, sprites, the grid background and the collected-family icons: pixel output with no state.
- The DOM, `localStorage`, the redirect to the game-over page, the keyboard listeners and `requestAnimationFrame`. These are browser I/O. Held keys are a parameter, and the `localStorage` hand-off is the `summary` field.
- The canvas size: COLS and ROWS come from the HTML canvas, which is not part of this model. They are `Config` parameters.
- The flashcard `fetch` in `showCheckpoint` and the overlay's HTML: network and asynchrony. Only the synchronous prefix changes state.
- Flask routing, CORS, JSON body parsing and its "Missing field" error, `uuid` generation, the `open` of the notes file, the `print` that logs a failed read, and `splitlines`. These are web and file I/O. Session ids, lesson numbers and lines are parameters; a read failure is a `Failure` value.
- `questions.py`, `backend/questions.py` and the root `app.py`: LLM calls and template routing, not part of this model.
- Floating-point arithmetic in JavaScript and Python. Coordinates are exact reals. The win test `correct / total >= 0.7` is modelled as `10 * correct >= 7 * total`. The two agree for every total below about 10^15, and the total here is always 2.
- Flashcards.IsDateLine: `\d` in a Python `str` pattern also matches non-ASCII decimal digits. The model accepts only '0' to '9'.
- Quiz.Accepted: a JSON choice that is not an integer (a float such as 3.0, or `true`) can compare equal to a correct index in Python. The model only has integer choices. An id that is not a string is also left out.
- Sessions.SubmissionsOnlyProgress: requests are modelled as applied whole and one at a time. The development server `app.run(debug=True)` handles requests on several threads, and the `+=` on the score and the check-then-set of the lesson counter are not atomic. Two overlapping requests for one session can therefore lose a score update or move the lesson counter back. The lemma does not cover that.
- Sessions.SubmitLessonQuiz: it takes the parsed lesson number. `int(...)` conversion errors and the missing-field replies are not modelled.
