# math-game-grade1 in Dafny

A model of the arithmetic game for first-graders: the stage game engine of
the `useGameState` hook and the small pure pieces around it.

- **Questions** (`questions.dfy`): `generateQuestion` builds a sum up to ten
  or a difference of single digits. Each `Math.random()` draw is a bounded
  input. `generateChoices` fills a set with the answer and wrong answers that
  differ from it by at most two, until the set holds four values. The model
  keeps that `while` loop as a method over a stream of random offsets, and
  treats the random-comparator sort as "the set's members in some order".
- **Engine** (`game_state.dfy`): the hook's state is the class `GameEngine`.
  Mounting (defaults, load, first question) is its constructor.
  `handleAnswer`, `startNextStage` and `applyCustomization` are methods. Each
  `setTimeout` callback becomes an entry of the `pending` list, and separate
  "timer fires" methods run it. The correct-answer callback keeps the
  question number its closure saw.
- **Profile** (`profile.dfy`): the `setCharacter` updaters of
  `startNextStage` and `applyCustomization`, and the load effect. Loading
  includes the migration of the legacy `level` field and the fallbacks for
  missing or falsy fields.
- **Unlocks and buttons** (`unlocks.dfy`): hats and accessories
  unlocked after a number of cleared stages, following JavaScript's `slice`,
  and the partial profile each button applies.
- **Calendar** (`calendar.dfy`): the `YYYY-MM-DD` key of a day cell, the day
  and blank cells of a month, and the cleared and today tests. Keys are
  proved to agree with the keys `startNextStage` stores.
- **Timed-variant screens** (`question_screen.dfy`, `results_screen.dfy`):
  the two `formatTime` functions, the answer-button lock and the new-best
  banner. Times are whole milliseconds.
- `js_text.dfy` models `String(n)`, `padStart(2, '0')` and a decimal reader
  used as their inverse. `constants.dfy` holds the stage length and the
  option lists. `wrappers.dfy` holds `Option`.

The accessory unlock count is `min(floor((stagesCleared + 1) / 2) + 1, 4)`,
as `components/CustomizationScreen.tsx:19` computes it, so every accessory
is unlocked from five cleared stages on.

## Model

| member | source | states |
|---|---|---|
| JsText.NatToString | components/QuestionScreen.tsx:27 | `String(n)` of a non-negative integer is a non-empty digit string, one digit exactly below 10, with no leading zero |
| JsText.IntToString | components/ResultsScreen.tsx:17 | a negative number is written as "-" followed by the text of its magnitude |
| JsText.PadStart2 | components/CalendarModal.tsx:71 | `padStart(2, '0')` keeps text of two or more characters and left-fills shorter text with zeros to length 2 |
| JsText.ParseNatToString | components/CalendarModal.tsx:71 | the decimal text of a number reads back as that number |
| JsText.Pad2Inverse | components/CalendarModal.tsx:71 | a padded number below 100 is exactly two digits and reads back as the number |
| JsText.Pad2Injective | components/CalendarModal.tsx:71 | padding is one-to-one on numbers below 100 |
| JsText.NatToStringOfParse | components/CalendarModal.tsx:71 | digit text without a leading zero is the text of its own value |
| JsText.Pad2OfParse | components/CalendarModal.tsx:71 | any two digits are the padded text of their value |
| JsText.SplitJoined | components/CalendarModal.tsx:71 | text joined as head, separator, two characters, separator, two characters splits back into those parts |
| Constants.StageLength | constants.ts:1 | a stage is 20 questions |
| Constants.OptionListShapes | constants.ts:5-7 | six colours, five hats, four accessories, no list repeats an entry |
| Constants.DefaultsAreFirstOptions | hooks/useGameState.ts:10-12 | the default colour is the first colour and "none" heads both the hat and the accessory list |
| Questions.GenerateQuestion | hooks/useGameState.ts:20-36 | the question is an addition with answer in 2..10 or a subtraction with num1 > num2 >= 1 and answer in 1..8, with the operator the coin chose |
| Questions.EveryQuestionIsGenerated | hooks/useGameState.ts:25-31 | every addition up to ten and every subtraction of single digits is produced by some in-range draw |
| Questions.AnswerRange | hooks/useGameState.ts:25-31 | every answer lies in 1..10 |
| Questions.AddIfAdmitted | hooks/useGameState.ts:45-48 | one loop pass only adds to the set, and by at most one value |
| Questions.Collected | hooks/useGameState.ts:43-49 | the set the loop holds after n offsets; it always holds the answer |
| Questions.CollectedMembers | hooks/useGameState.ts:40-49 | the set always holds the answer, and every other member is non-negative, differs from the answer and is within two of it |
| Questions.CollectedSize | hooks/useGameState.ts:43-49 | after n offsets the set holds at most n + 1 values |
| Questions.GenerateChoices | hooks/useGameState.ts:38-52 | the choices are four distinct values holding the answer and only admissible wrong answers, exactly the set the loop holds when it first reaches four |
| Questions.FillChoiceSet | hooks/useGameState.ts:43-49 | the loop stops at the first offset count at which the set holds four values, having used at least three offsets |
| Questions.ListInSomeOrder | hooks/useGameState.ts:51 | the listed values are the set's members, each exactly once |
| Questions.CollectedWithinCandidates | hooks/useGameState.ts:44-47 | the set never leaves the answer and its admissible neighbours |
| Questions.ChoicesCanFinish | hooks/useGameState.ts:43-49 | for an answer of at least 1 some offset stream ends the loop |
| Questions.ZeroAnswerNeverFills | hooks/useGameState.ts:43-49 | for an answer of 0 no offset stream ends the loop |
| Questions.GeneratedQuestionsHaveChoices | hooks/useGameState.ts:35 | every generated question has an offset stream that ends its choice loop |
| Profile.RecordStageCleared | hooks/useGameState.ts:114-123 | one more stage; today is added only when absent, so the list keeps its order, grows by at most one and stays duplicate-free; cosmetics are unchanged |
| Profile.TwoClearsSameDay | hooks/useGameState.ts:114-123 | two clears on one day count two stages and record the day exactly once |
| Profile.Customize | hooks/useGameState.ts:131 | each field present in the partial overwrites its cosmetic; absent cosmetics, the stage count and the dates are unchanged |
| Profile.CustomizeIdempotent | hooks/useGameState.ts:131 | the empty partial changes nothing, and applying a partial twice equals applying it once |
| Profile.LoadedStages | hooks/useGameState.ts:61 | a stored stage count wins even when 0; otherwise a truthy level gives level - 1, anything else 0 |
| Profile.LoadCharacter | hooks/useGameState.ts:55-76 | no stored profile or an unreadable one leaves the defaults; a stored one supplies stages and dates (none stored gives no dates), and each non-empty cosmetic, while a missing or empty colour becomes "#3b82f6" and a missing or empty hat or accessory becomes "none" |
| Profile.LoadQuestionNumber | hooks/useGameState.ts:71-73 | a stored question number is restored, unless reading the profile threw first |
| Profile.Stored | hooks/useGameState.ts:84 | the saved record holds the stage count, which loading reads back as is, and the recorded dates |
| Profile.LegacyLevelMigrates | hooks/useGameState.ts:61 | a legacy `{level: 3}` loads as two stages cleared with default cosmetics |
| Profile.StoredStagesWin | hooks/useGameState.ts:61 | a stored stage count of 0 is kept whatever the legacy level |
| Profile.UnreadableIsLikeNothing | hooks/useGameState.ts:74-76 | unreadable storage loads the same profile as empty storage |
| Profile.SaveLoadRoundTrip | hooks/useGameState.ts:82-89 | saving then loading restores the profile and the question number when no cosmetic is empty |
| Profile.EmptyColorNotRestored | hooks/useGameState.ts:66 | an empty stored colour loads as the default colour |
| GameState.UsableRandomnessExists | hooks/useGameState.ts:20-52 | every in-range question draw can be completed by offsets on which question generation ends |
| GameState.GameEngine.constructor | hooks/useGameState.ts:6-79 | mounting loads the profile and question number, generates a first question, and starts playing with no wrong guess and no pending callback |
| GameState.GameEngine.NextQuestion | hooks/useGameState.ts:20-36 | a new valid question with fitting choices; nothing else changes |
| GameState.GameEngine.HandleAnswer | hooks/useGameState.ts:92-110 | nothing changes unless playing; a right answer moves to answering and schedules the advance; a wrong one records the guess, keeps question, number and status, and schedules its clearing |
| GameState.GameEngine.FireAdvanceTimer | hooks/useGameState.ts:97-105 | if the number its closure saw is 20 the stage is cleared with the number unchanged; otherwise the number rises by one and a new question is played |
| GameState.GameEngine.FireClearIncorrectTimer | hooks/useGameState.ts:108 | the wrong-guess marker is cleared and nothing else changes |
| GameState.GameEngine.StartNextStage | hooks/useGameState.ts:112-127 | the profile records the stage and today, the number resets to 1, a new question is played; cosmetics, wrong-guess marker and pending callbacks are kept |
| GameState.GameEngine.ApplyCustomization | hooks/useGameState.ts:130-132 | the profile takes the partial; the session state is unchanged |
| GameState.WrongThenRight | hooks/useGameState.ts:92-110 | a wrong guess followed by the right answer moves the question number on by exactly one |
| GameState.FinishStage | hooks/useGameState.ts:98-126 | answering question 20 and starting the next stage counts one stage, records today and restarts at question 1 |
| GameState.PlayStage | hooks/useGameState.ts:92-105 | from question 1 with nothing pending, play continues through 19 correct answers and exactly the 20th clears the stage, at question 20, with the profile unchanged |
| GameState.PastTheLastQuestion | hooks/useGameState.ts:97-104 | with a loaded question number above 20, a correct answer moves the number on and play continues: the stage is never cleared |
| Unlocks.SliceTo | components/CustomizationScreen.tsx:18-19 | `slice(0, end)` is a prefix of the list: of length `end` when in range, the whole list when `end` is past its length, counted back from the end when `end` is negative |
| Unlocks.EquivalentLevel | components/CustomizationScreen.tsx:17 | the level shown for a stage count is at least 1 from no stage cleared on |
| Unlocks.LegacyLevelShownAgain | components/CustomizationScreen.tsx:17 | a legacy profile stored with a truthy `level` loads to a count whose equivalent level is that level again |
| Unlocks.UnlockedHats | components/CustomizationScreen.tsx:17-18 | the unlocked hats are a prefix of the hat list |
| Unlocks.UnlockedAccessories | components/CustomizationScreen.tsx:17-19 | the unlocked accessories are a prefix of the accessory list |
| Unlocks.UnlockedHatsCount | components/CustomizationScreen.tsx:17-18 | for a non-negative count s the unlocked hats are the first min(s + 1, 5) hats |
| Unlocks.UnlockedAccessoriesCount | components/CustomizationScreen.tsx:17-19 | for a non-negative count s the unlocked accessories are the first min(floor((s + 1) / 2) + 1, 4) accessories |
| Unlocks.UnlocksGrow | components/CustomizationScreen.tsx:18-19 | for 0 <= s <= t each unlocked list at s is a prefix of the one at t |
| Unlocks.NoneAlwaysUnlocked | components/CustomizationScreen.tsx:17-19 | "none" is unlocked at every non-negative stage count, and at 0 stages it is the only hat and accessory |
| Unlocks.AllHatsUnlockedIff | components/CustomizationScreen.tsx:18 | for every count, negative ones included, every hat is unlocked if and only if at least 4 stages are cleared |
| Unlocks.AllAccessoriesUnlockedIff | components/CustomizationScreen.tsx:19 | for every count, negative ones included, every accessory is unlocked if and only if at least 5 stages are cleared |
| Unlocks.NegativeStagesSlice | components/CustomizationScreen.tsx:17-19 | at -2 stages the negative slice end shows four hats and no accessory |
| Unlocks.NegativeCountLosesHat | components/CustomizationScreen.tsx:17-18 | a stored `level` of -1 loads as -2 stages, where "none" is an unlocked hat; one clear later no hat is unlocked, so the worn "none" is locked |
| Unlocks.ColorButtons | components/CustomizationScreen.tsx:35-42 | one button per colour, each applying only that colour |
| Unlocks.HatButtons | components/CustomizationScreen.tsx:51-58 | one button per unlocked hat, each applying only that hat |
| Unlocks.AccessoryButtons | components/CustomizationScreen.tsx:67-74 | one button per unlocked accessory, each applying only that accessory |
| Unlocks.DefaultIsUnlocked | components/CustomizationScreen.tsx:17-19 | the default profile wears only options unlocked at 0 stages |
| Unlocks.OfferedKeepsUnlocked | components/CustomizationScreen.tsx:35-74 | pressing any offered button keeps every worn cosmetic unlocked |
| Unlocks.StageClearKeepsUnlocked | components/CustomizationScreen.tsx:17-19 | from a non-negative stage count, clearing a stage never locks a worn cosmetic |
| Unlocks.StoreTrustsCaller | hooks/useGameState.ts:130-132 | a partial no button offers is still applied as given |
| Calendar.Days | components/CalendarModal.tsx:29 | the day cells are 1..daysInMonth, strictly increasing |
| Calendar.Blanks | components/CalendarModal.tsx:28 | one blank cell per weekday before the 1st |
| Calendar.DayKey | components/CalendarModal.tsx:71 | the key starts with the year's text; for months and days that pad to two digits it is the year, "-", two digits, "-", two digits |
| Calendar.ParseDayKeyInverse | components/CalendarModal.tsx:71 | the key of a day reads back as that year, month and day |
| Calendar.DayKeyInjective | components/CalendarModal.tsx:71 | different days never share a key |
| Calendar.DayKeyIsIso | components/CalendarModal.tsx:71 | for a four-digit year, month 0..11 and day 1..31 the key has the `YYYY-MM-DD` shape of stored keys |
| Calendar.StoredKeyIsDayKey | hooks/useGameState.ts:113 | every stored `YYYY-MM-DD` key with a year from 1000 on (no leading zero), a month 01-12 and a day 01-31 is the key of exactly the cell it names |
| Calendar.IsCleared | components/CalendarModal.tsx:73 | a cell is cleared exactly when some entry of the recorded dates equals its key |
| Calendar.ClearedDayShows | components/CalendarModal.tsx:73 | after a stage is cleared on a day, that day's cell shows as cleared |
| Calendar.CellClearedIff | components/CalendarModal.tsx:73 | a cell shows as cleared if and only if a recorded date names that day |
| Calendar.IsToday | components/CalendarModal.tsx:74 | a cell is today's exactly when its key and today's key agree character by character |
| Calendar.OneTodayCell | components/CalendarModal.tsx:74 | at most one cell of a month is highlighted as today |
| QuestionScreen.Clamp | components/QuestionScreen.tsx:23 | a negative time counts as 0 and any other time is kept as it is |
| QuestionScreen.Decompose | components/QuestionScreen.tsx:24-26 | seconds in 0..59, hundredths in 0..99, and the parts recombine to at most 9 ms below the time |
| QuestionScreen.DecomposeUnique | components/QuestionScreen.tsx:24-26 | those bounds determine the parts uniquely |
| QuestionScreen.DecomposeTotal | components/QuestionScreen.tsx:24-26 | the parts drop exactly the milliseconds below the hundredth |
| QuestionScreen.FormatTime | components/QuestionScreen.tsx:22-28 | unpadded minutes without a leading zero, ":", two digits, ".", two digits |
| QuestionScreen.FormatTimeReadsBack | components/QuestionScreen.tsx:27 | the text reads back as the parts of the clamped time |
| QuestionScreen.DisplayIsAccurate | components/QuestionScreen.tsx:22-28 | the displayed time is the elapsed time less under 10 ms |
| QuestionScreen.SameDisplayIff | components/QuestionScreen.tsx:22-28 | two times show the same text if and only if they fall in the same hundredth of a second |
| QuestionScreen.NegativeShowsZero | components/QuestionScreen.tsx:23 | a negative time shows "0:00.00" |
| QuestionScreen.AnswerButtonsDisabled | components/QuestionScreen.tsx:77 | disabled buttons imply neither incorrect nor missing feedback |
| QuestionScreen.OnlyCorrectLocks | components/QuestionScreen.tsx:77 | buttons are disabled only under correct feedback; incorrect feedback leaves them clickable |
| ResultsScreen.JsRem | components/ResultsScreen.tsx:15-16 | JavaScript's `%`: the Euclidean remainder for a non-negative number, a value in -(b-1)..0 for a negative one |
| ResultsScreen.JsRemOdd | components/ResultsScreen.tsx:15-16 | the remainder of a negated number is the negated remainder |
| ResultsScreen.ResultParts | components/ResultsScreen.tsx:14-16 | for a non-negative time the parts are those of the question screen; for a negative one minutes are negative and the other parts non-positive |
| ResultsScreen.FormatResultTime | components/ResultsScreen.tsx:12-18 | a null time shows "-:--.--"; a non-negative time shows the same text as the question screen |
| ResultsScreen.ResultFieldsInRange | components/ResultsScreen.tsx:15-16 | for a non-negative time seconds are in 0..59, hundredths in 0..99, and the display is accurate |
| ResultsScreen.NullTimeDistinct | components/ResultsScreen.tsx:13 | no real time shows the text of a null time |
| ResultsScreen.NegativeTimeShowsMinusOnes | components/ResultsScreen.tsx:14-17 | without a clamp, -1 ms shows "-1:-1.-1" |
| ResultsScreen.IsNewBestTime | components/ResultsScreen.tsx:28 | the banner implies that a best time exists |
| ResultsScreen.NewBestIff | components/ResultsScreen.tsx:28 | the banner shows if and only if a best time exists and equals the current time, so a null best time never shows it |

## Left out

- Probabilities: the 60/40 operator coin, uniform draws and the bias of the random-comparator sort. Draws are bounded inputs. The shuffle is "some order".
- Questions.GenerateChoices: the random offsets are a finite input stream that is long enough to fill the set. The source's loop would spin forever on an answer of 0, but that answer never occurs (`ZeroAnswerNeverFills`, `AnswerRange`).
- Storage: `localStorage`, `JSON.parse`/`JSON.stringify` and `parseInt`. Load takes already-decoded optional fields plus an "unreadable" case. A saved question number that parses to `NaN` is not modelled; the saved number is an optional integer.
- The short window before the mount effect runs, when `question` is null and `choices` is empty: the constructor already includes the first question.
- Timer delays (1000 ms and 500 ms). Pending callbacks may fire in any order, which includes the order their delays give.
- GameState.GameEngine.StartNextStage: the source has no guard on the game status. The model has none either, so callbacks still pending are kept rather than cancelled.
- Dates: `new Date()`, `toISOString()` (UTC), month lengths and weekdays. Today's key, the year, the month, the number of days and the starting weekday are inputs. The calendar builds local-date keys while the stored key comes from UTC; that mismatch near midnight is not modelled.
- Calendar month navigation (`components/CalendarModal.tsx:33-39`): it relies on `Date` normalisation of out-of-range months.
- Stage counts below zero: a stored `level` of -1 or less, or a stored negative `stagesCleared` (which the save effect writes back after such a load), produces one. Unlocks.UnlockedHatsCount, Unlocks.UnlockedAccessoriesCount, Unlocks.UnlocksGrow, Unlocks.NoneAlwaysUnlocked and Unlocks.StageClearKeepsUnlocked are stated for non-negative counts; there JavaScript's negative slice end applies and unlocks do not grow (`NegativeStagesSlice`, `NegativeCountLosesHat`).
- Calendar keys for years before 1000: `toISOString()` pads them to four digits ("0999-…"), which no cell key produces.
- Negative years in calendar keys: `DayKey` takes a non-negative year.
- Fractional milliseconds in both `formatTime` functions: times are whole milliseconds.
- ResultsScreen.JsRem: states only the sign and range of the remainder and its value for non-negative input, not the congruence with the number for negative input.
- Rendering, audio and input handling: App.tsx, GameScreen.tsx, CharacterDisplay.tsx, ChoiceButton.tsx, StartScreen.tsx and ProgressBar.tsx.
- The timed variant's `GameState` and question types (types.ts), and any code updating the best or previous time. None of that is part of this model.
