# Fitness tracker data layer and screen logic, modelled in Dafny

This project models the core of a React Native workout tracker:

- **The workout provider.** It keeps the saved workouts and the tracked sessions and mirrors both to the device store. It also derives per-exercise progress from the sessions.
- **The storage service.** It offers five key aliases and save, load, remove and clear over the device store.
- **The screens' logic.** This covers the session tracker, history and progress charts, the planner, the workout editor, the workout list, the exercise catalog search, and the create-workout dialog.

The model keeps JavaScript's own behaviour where it matters:

- **Arrays with holes.** An array element is a hole, `undefined`, or a value (`Seqs.Slot`). A spread copy `[...a]` turns holes into `undefined`. `some`, `every` and `filter` skip holes; `find` visits them.
- **Thrown errors.** Reading a property of `undefined` or `null` throws. The model returns `Failure(TypeError)` there.
- **The JSON round trip.** The sessions are written with `JSON.stringify` and read back with `JSON.parse`. A hole comes back as `null`, which the screens treat like `undefined` (`WorkoutContext.Reloaded`).
- **`Math.max` over possibly missing numbers.** It gives NaN, `-Infinity` (for no argument), or the largest value.
- **`saveWorkout` appends.** It always appends its argument as one new element. Deleting a workout therefore appends the filtered list as one element (`WorkoutData.Entry.Batch`).

Screens that change component state in place are classes: `WorkoutContext.WorkoutProvider`, `ExerciseTracker.Tracker`, `CreateWorkoutModal.Dialog`, `StorageService.Storage` and `ProgressScreen.ChartData`. Their methods have `modifies` frames. Pure helpers (filters, `cleanDescription`, chart building) are functions. Each is paired with lemmas that state what it means.

Some consequences of the code as written:

- `saveWorkout` (context/WorkoutContext.js:28-36) appends and never replaces a workout of the same name. Edits and deletions therefore add a new entry next to the old one.
- No function of the provider deletes a tracked session.
- The progress screen reads `progressData` from the context (screens/ProgressScreen.js:20), but the provider's value (context/WorkoutContext.js:64-70) has no such field. Here it is an input.

## Model

| member | source | states |
|---|---|---|
| WorkoutContext.WorkoutProvider.constructor | context/WorkoutContext.js:8-9 | Both in-memory lists start empty; the store holds what earlier runs left. |
| WorkoutContext.WorkoutProvider.LoadSavedData | context/WorkoutContext.js:16-26 | Each list is replaced by its stored value when one exists, and otherwise kept. The sessions come back through JSON, with holes read back as `null`. |
| WorkoutContext.Mount | context/WorkoutContext.js:8-26 | After mounting, each list equals its stored value (the sessions as read back through JSON), or is empty when nothing is stored. |
| WorkoutContext.ReloadedMeaning | context/WorkoutContext.js:22 | A session read back keeps its date, workout name, exercise and set positions and every value. No hole is left at either level, and every former hole is `null`. |
| WorkoutContext.ReloadedIdempotent | context/WorkoutContext.js:22 | Writing and reading back a second time changes nothing. |
| WorkoutContext.WorkoutProvider.SaveWorkout | context/WorkoutContext.js:28-36 | The argument is appended as exactly one new element, whatever its name. The store then holds the whole new list. |
| WorkoutContext.WorkoutProvider.TrackSession | context/WorkoutContext.js:38-42 | The session is appended after all earlier ones. The store then holds the whole new list. |
| WorkoutContext.Volume | context/WorkoutContext.js:56-58 | The reduce throws exactly when some set is undefined or `null`. Otherwise the volume is never -Infinity, it is NaN exactly when some present set lacks a weight or reps, and else it is Σ weight × reps over the present sets. |
| WorkoutContext.FirstNamed | context/WorkoutContext.js:50 | The index returned is that of the first exercise with the name; no exercise before it has the name; None means none has. |
| WorkoutContext.MentionsMeaning | context/WorkoutContext.js:45-48 | `some` throws exactly when an undefined element lies before the first exercise with the name. Otherwise it says whether any exercise has the name. |
| WorkoutContext.FindMeaning | context/WorkoutContext.js:50 | When the name occurs, `find` throws exactly when a hole or undefined lies before its first occurrence. Otherwise it returns that first exercise. |
| WorkoutContext.SessionsMentioningMeaning | context/WorkoutContext.js:45-48 | The filter throws exactly when some session's `some` throws. Otherwise it keeps exactly the sessions holding the name, in order. |
| WorkoutContext.PointsForMeaning | context/WorkoutContext.js:49-59 | Over sessions that hold the name, the map throws exactly when some session's `find` throws or its first matching exercise has an undefined set. Otherwise it gives one point per session, made from that exercise. |
| WorkoutContext.ThrowsSplit | context/WorkoutContext.js:45-58 | A session makes progress throw exactly when its `some` throws, or it holds the name and either its `find` throws or the exercise found has an undefined set. |
| WorkoutContext.ProgressForExerciseMeaning | context/WorkoutContext.js:44-60 | Progress throws exactly when some session throws. Otherwise it has one point per session holding the name, in session order: the date, the max weight and the volume of that session's first matching exercise. |
| WorkoutContext.ProgressMaxWeight | context/WorkoutContext.js:51-55 | When the matched exercise has sets and every set has a weight, its session does not throw, and the point's max weight is one of those weights and no weight exceeds it. |
| WorkoutContext.ReloadMakesSkippedSetThrow | context/WorkoutContext.js:22-58 | A session whose exercise skipped its first set gives a NaN max weight before a restart, and makes progress throw after the sessions are read back. |
| WorkoutData.MaxWeight | context/WorkoutContext.js:51-55 | `Math.max` of the set weights throws exactly when a set is undefined or `null`. Otherwise it is -Infinity exactly for no sets, NaN exactly when a set is a hole or lacks a weight, and else the largest weight, which some set has. |
| Js.MathMax | context/WorkoutContext.js:51-55 | -Infinity exactly for no arguments. NaN exactly when some argument is undefined. Otherwise it is an argument and no argument exceeds it. |
| Js.Includes | screens/ExerciseList.js:47-52 | `includes` is true exactly when the query occurs at some position. |
| Js.ToLower | screens/ExerciseList.js:47-52 | Lowercasing restricted to the letters A to Z: no capital A to Z is left, each becomes its small letter, and every other character is kept, so the length is kept. |
| Js.ToLowerIdempotent | screens/ExerciseList.js:47-52 | Lowercasing twice is lowercasing once; text without capitals is unchanged. |
| Js.TrimStart | screens/WorkoutPlanner.js:92 | Drops a prefix made only of whitespace and nothing else, and the result does not start with whitespace. |
| Js.TrimEnd | screens/WorkoutPlanner.js:92 | Drops a suffix made only of whitespace and nothing else, and the result does not end with whitespace. |
| Js.Trim | screens/WorkoutPlanner.js:92 | The result neither starts nor ends with whitespace. |
| Js.TrimKeeps | screens/WorkoutPlanner.js:92 | Trimming keeps every non-whitespace character in order. It adds no adjacent whitespace. |
| Js.TrimEmpty | components/CreateWorkoutModal.js:67 | `trim()` gives "" exactly for strings made only of whitespace. |
| Js.CollapseSpaces | screens/WorkoutPlanner.js:91 | The result never has two whitespace characters in a row. It starts with whitespace exactly when the input does. |
| Js.CollapseSpacesWord | screens/WorkoutPlanner.js:91 | Text without whitespace is unchanged. |
| Js.CollapseSpacesLeadingRun | screens/WorkoutPlanner.js:91 | A leading run of whitespace becomes exactly one space. |
| Js.CollapseSpacesConcat | screens/WorkoutPlanner.js:91 | Text is collapsed independently on either side of a non-whitespace character. |
| Js.CollapseSpacesRun | screens/WorkoutPlanner.js:91 | Each maximal run of whitespace becomes exactly one space, and the text around it is collapsed independently. |
| Js.TrimStartRun | screens/WorkoutPlanner.js:92 | `trimStart()` drops exactly the leading whitespace. |
| Js.CollapseSpacesVisible | screens/WorkoutPlanner.js:91 | Collapsing whitespace keeps every non-whitespace character, in order. |
| Seqs.Filter | screens/ManageWorkouts.js:24-26 | `filter` keeps exactly the elements satisfying the test, never more than the input. |
| Seqs.FilterCount | screens/ManageWorkouts.js:24-26 | `filter` keeps each element satisfying the test as often as the input has it, and no other. |
| Seqs.FilterConcat | screens/ManageWorkouts.js:24-26 | Filtering distributes over concatenation, so the input's order is kept. |
| Seqs.FilterIsSubsequence | screens/ManageWorkouts.js:24-26 | What `filter` keeps is a subsequence of its input. |
| Seqs.WriteAt | screens/ExerciseTracker.js:27-31 | Writing at index i sets i and extends the array with holes when i is past the end; every other index is unchanged. |
| Seqs.Spread | screens/ExerciseTracker.js:20 | The spread copy has the same length and no hole: every hole becomes undefined, every value is kept, and nothing else becomes a value. |
| Seqs.SpreadIdempotent | screens/ExerciseTracker.js:20 | Spreading a spread copy changes nothing. |
| Sorting.InsertByPermutes | screens/ProgressScreen.js:45-47 | One insertion step adds exactly the inserted element. |
| Sorting.InsertBySorted | screens/ProgressScreen.js:45-47 | Inserting into a list sorted by date keeps it sorted. |
| Sorting.InsertByStable | screens/ProgressScreen.js:45-47 | Insertion keeps equal dates in their relative order. |
| Sorting.SortByCorrect | screens/ProgressScreen.js:45-47 | The sort orders by date ascending, is a permutation of its input, and is stable. |
| Sorting.SortInPlace | screens/ProgressScreen.js:45-47 | The array sorted in place equals the stable sort of its old contents. |
| Sorting.InsertByAt | screens/ProgressScreen.js:45-47 | An element goes right after the last element whose date does not exceed its own. |
| Sorting.InsertInPlace | screens/ProgressScreen.js:45-47 | One pass moves the element left past every larger date, leaving the rest untouched. |
| Sorting.ShiftRight | screens/ProgressScreen.js:45-47 | The elements with a larger date move one place right, the others stay, and the gap left is where the element belongs. |
| HistoryScreen.SessionPointsMeaning | screens/HistoryScreen.js:12-20 | One session throws exactly when it holds an undefined exercise, or an exercise with the name that has an undefined set. Otherwise it gives one point per exercise with the name, in order. |
| HistoryScreen.AllPointsMeaning | screens/HistoryScreen.js:12-20 | `flatMap` throws exactly when some session throws as above. Otherwise it gives every matching exercise's point, session by session. |
| HistoryScreen.ProcessExerciseDataMeaning | screens/HistoryScreen.js:11-31 | The chart throws exactly when some session holds an undefined exercise or a matching exercise with an undefined set. Otherwise there is one label and one value per match (every match counts, duplicates too). The points are ordered by date, are a permutation of the matches, and keep session order for equal dates. |
| HistoryScreen.UnknownNameGivesEmptyChart | screens/HistoryScreen.js:11-31 | A name no session holds gives empty labels and data. |
| HistoryScreen.EveryMatchCounts | screens/HistoryScreen.js:13-19 | Two exercises with the same name in one session both give a point. |
| ExerciseTracker.Logged | screens/ExerciseTracker.js:27-31 | The written set is completed. The chosen field gets the value; the other fields come from the earlier set, or are absent. |
| ExerciseTracker.Tracker.constructor | screens/ExerciseTracker.js:16-17 | No workout selected, empty session. |
| ExerciseTracker.Tracker.SelectWorkout | screens/ExerciseTracker.js:83 | The tapped workout becomes the selected one. |
| ExerciseTracker.Tracker.LogSet | screens/ExerciseTracker.js:19-33 | The new session is the spread copy with entry i (created under the workout exercise's name when absent) and its set j written. It keeps every present set completed. |
| ExerciseTracker.LogSetMeaning | screens/ExerciseTracker.js:19-33 | Entry i holds the written set and keeps its other sets and its name. Every other index keeps its entry, except that holes become undefined. The length grows only to cover i. |
| ExerciseTracker.LogSetKeepsCanComplete | screens/ExerciseTracker.js:19-33 | Logging preserves "every present set is completed". |
| ExerciseTracker.CanCompleteFromStart | screens/ExerciseTracker.js:105-109 | Every run of logSet calls from an empty session leaves every present set completed, so Complete Workout should be enabled. |
| ExerciseTracker.RepeatedLogDisablesComplete | screens/ExerciseTracker.js:105-109 | As written, two logs into exercise 3 of an empty session disable Complete Workout, although every logged set is completed. |
| ExerciseTracker.Tracker.SaveSession | screens/ExerciseTracker.js:65-72 | Exactly one session is tracked: dated now, named after the workout, holding the logged entries. |
| ProgressScreen.HistoryIsFilter | screens/ProgressScreen.js:27-39 | An exercise's history is the filter of the records by name and a truthy first weight. |
| ProgressScreen.HistoryMembers | screens/ProgressScreen.js:27-39 | An exercise's history holds exactly its records whose first set has a truthy weight, each as often as in the input and in input order. |
| ProgressScreen.HistoryOfAbsentName | screens/ProgressScreen.js:27-39 | A name no record has gets an empty history. |
| ProgressScreen.GroupStep | screens/ProgressScreen.js:28-37 | One step of the reduce keeps every group equal to its name's history over the records seen so far. |
| ProgressScreen.GroupByName | screens/ProgressScreen.js:27-39 | A group exists for every record's name, qualifying or not. Each group is that name's history. |
| ProgressScreen.ChartData.constructor | screens/ProgressScreen.js:57-70 | The chart holds the given labels and series. |
| ProgressScreen.WeightPointMeaning | screens/ProgressScreen.js:60-66 | A record without sets plots -Infinity. Otherwise it plots the largest weight (missing ones count as 0), which is one of its sets' weights. |
| ProgressScreen.VolumeConcat | screens/ProgressScreen.js:102-110 | The reduced volume adds up over concatenated set lists. |
| ProgressScreen.VolumeMeaning | screens/ProgressScreen.js:102-110 | The volume bounds every set's weight × reps. It is 0 exactly when every set contributes 0. |
| ProgressScreen.ChartOfMeaning | screens/ProgressScreen.js:44-72 | An empty history charts as "Start" and 0. Otherwise there is one label and one value per record, dates ascending, a permutation of the history, with records of equal date in their history order. |
| ProgressScreen.GetChartData | screens/ProgressScreen.js:44-72 | Sorts the group's array in place by date (stably) and returns the weight chart of the sorted array. |
| ProgressScreen.GetVolumeChartData | screens/ProgressScreen.js:81-114 | Sorts the group's array in place by date and returns the volume chart of the sorted array. |
| ProgressScreen.RenderChart | screens/ProgressScreen.js:141-169 | Draws only when data exist. A one-point series gets "Start" and 0 in front; longer ones are unchanged; every drawn series has at least two points. |
| ProgressScreen.AllWeights | screens/ProgressScreen.js:258-262 | Holds exactly the weights of every set of every record. |
| ProgressScreen.PersonalRecordMeaning | screens/ProgressScreen.js:258-262 | The PR is NaN exactly when some set lacks a weight, and -Infinity exactly when no record has a set. Otherwise it is a logged weight that no weight exceeds. |
| ProgressScreen.ItemStats | screens/ProgressScreen.js:255-270 | An item renders exactly when its history is non-empty and its first and latest records have a set. |
| ProgressScreen.ZeroWeightRecordBreaksItem | screens/ProgressScreen.js:27-39 | As written, a name whose only record has first weight 0 is listed, with an empty group whose item throws. |
| ProgressScreen.ListedNames | screens/ProgressScreen.js:409-411 | The corrected list shows only names that some record has. |
| ProgressScreen.ListedItemsRender | screens/ProgressScreen.js:255-270 | Every name on the corrected list renders without throwing. |
| ProgressScreen.ConfirmDeleteExercise | screens/ProgressScreen.js:235-253 | Exactly the keys whose record has the chosen name are removed. Every other key keeps its record. |
| WorkoutPlanner.InitialState | screens/WorkoutPlanner.js:22-30 | The form starts with the template's name and exercises (or empty), no exercise name, 3 sets and 12 reps. |
| WorkoutPlanner.AddExercise | screens/WorkoutPlanner.js:56-72 | With no exercise name nothing changes. Otherwise exactly one exercise is appended, with the chosen number of planned sets and empty notes. The name box is cleared; all else is kept. |
| WorkoutPlanner.DeleteExerciseAt | screens/WorkoutPlanner.js:178-182 | The splice removes exactly the element at the index and keeps the rest in order. |
| WorkoutPlanner.SaveEnabledAfterAdd | screens/WorkoutPlanner.js:291-295 | Save starts disabled without a template. After Add it is enabled exactly when the plan has a name and had an exercise or an exercise name was typed. |
| WorkoutPlanner.PlanRecord | screens/WorkoutPlanner.js:75-81 | The saved record has the form's name and exercises and the current date. It records whether it came from a template, and the template's name only then. |
| WorkoutPlanner.SavePlan | screens/WorkoutPlanner.js:74-83 | Appends the plan record to the saved workouts. |
| WorkoutPlanner.CloseAt | screens/WorkoutPlanner.js:89 | The position of the first '>'. |
| WorkoutPlanner.StripTagsNoTag | screens/WorkoutPlanner.js:89 | After tag removal no '<' precedes a '>'. |
| WorkoutPlanner.ReplaceNbspNoNbsp | screens/WorkoutPlanner.js:90 | After the replacement "&nbsp;" occurs nowhere. |
| WorkoutPlanner.CollapseSpacesNoNbsp | screens/WorkoutPlanner.js:91 | Collapsing whitespace creates no "&nbsp;". |
| WorkoutPlanner.CollapseSpacesNoTag | screens/WorkoutPlanner.js:91 | Collapsing whitespace creates no tag. |
| WorkoutPlanner.StripTagsPlain | screens/WorkoutPlanner.js:89 | Text without '<' is unchanged by tag removal. |
| WorkoutPlanner.StripTagsSpan | screens/WorkoutPlanner.js:89 | A tag, from '<' to the first '>' after it, is removed, and the text before it is kept. |
| WorkoutPlanner.ReplaceNbspPlain | screens/WorkoutPlanner.js:90 | Text without "&nbsp;" is unchanged by the replacement. |
| WorkoutPlanner.ReplaceNbspAt | screens/WorkoutPlanner.js:90 | The first "&nbsp;" becomes one space, and the text before it is kept. |
| WorkoutPlanner.CleanDescriptionMeaning | screens/WorkoutPlanner.js:86-93 | A missing or empty description cleans to "". Otherwise the result has no whitespace at either end, no two whitespace characters in a row, no tag and no "&nbsp;". It keeps every non-whitespace character left after tag removal and entity replacement, in order. (The step-by-step rewrites are the rows above.) |
| EditWorkout.WithoutExercise | screens/EditWorkout.js:25-33 | Every exercise with the target's name is gone (duplicates too). The others stay in order, each as often as before, and every other field is kept. |
| EditWorkout.HandleDeleteExercise | screens/EditWorkout.js:25-33 | Appends the workout without the target's exercises. |
| EditWorkout.HandleEditExercise | screens/EditWorkout.js:35-40 | The edit box starts with the set count and the first set's reps. It throws exactly when there is no first set or its reps are missing. |
| EditWorkout.WithEditedSets | screens/EditWorkout.js:42-62 | Every exercise with the edited name gets the chosen number of planned sets. Everything else, including order, names and notes, is kept. |
| EditWorkout.HandleSaveExerciseEdit | screens/EditWorkout.js:42-62 | Appends the edited workout. |
| EditWorkout.UnchangedEditKeepsWorkout | screens/EditWorkout.js:35-62 | Saving the values the edit box opens with leaves a uniformly planned exercise with a unique name unchanged. |
| ManageWorkouts.Templates | data/workoutTemplates.js:1-75 | Three templates, each of kind "template" with at least one exercise. |
| ManageWorkouts.Remaining | screens/ManageWorkouts.js:23-28 | Keeps exactly the elements not named like the target, in order and each as often as before. No workout of that name remains. |
| ManageWorkouts.DeleteWorkout | screens/ManageWorkouts.js:23-28 | As written the list grows by one (the filtered list appended as one element) and nothing is removed. The store holds the new list, and the saved list no longer renders. |
| ManageWorkouts.DeleteWorkoutIntended | screens/ManageWorkouts.js:23-28 | The corrected deletion: the list becomes the filtered list, and the store holds it. |
| ManageWorkouts.DeletedListThrows | screens/ManageWorkouts.js:23-53 | As written, after any deletion the saved list throws, because the appended array has no `exercises`. |
| ManageWorkouts.RemainingKeepsCards | screens/ManageWorkouts.js:23-53 | With the corrected deletion a list that renders still renders, and no card shows a workout of the deleted name. |
| ManageWorkouts.Lines | screens/ManageWorkouts.js:47-53 | The exercise lines throw exactly when some exercise has no set. Otherwise there is one line per exercise: its name, its set count and its first set's reps. |
| ManageWorkouts.CardOf | screens/ManageWorkouts.js:30-81 | A card throws exactly when its element is a whole array or has an exercise without sets. Otherwise it shows the workout, one line per exercise, and offers Delete exactly when it is not a template. |
| ManageWorkouts.CardsOf | screens/ManageWorkouts.js:108-117 | The list throws exactly when some card throws. Otherwise there is one card per element, in order. |
| ManageWorkouts.ListItems | screens/ManageWorkouts.js:108-111 | The list shows the three templates, none of whose cards throws, or the saved list. |
| ManageWorkouts.Cards | screens/ManageWorkouts.js:30-117 | The templates always render. The saved list throws exactly when some element is a whole array or has an exercise without sets. Otherwise there is one card per element, in order, one line per exercise, and only saved workouts offer Delete. |
| ExerciseList.FilterExercises | screens/ExerciseList.js:47-52 | Exactly the catalog exercises whose lowercased name contains the lowercased query, each as often as in the catalog, as a subsequence of the catalog. |
| ExerciseList.EmptyQueryKeepsAll | screens/ExerciseList.js:47-52 | An empty search keeps the whole catalog. |
| ExerciseList.WithExercise | screens/ExerciseList.js:82-92 | Exactly one exercise is appended: the selected name, 3 planned sets of 12 reps, empty notes. Every other field is kept. |
| ExerciseList.HandleSaveToWorkout | screens/ExerciseList.js:81-97 | Appends the extended workout and returns "Added <exercise> to <workout>". |
| CreateWorkoutModal.CreateEnabledMeaning | components/CreateWorkoutModal.js:67 | Create is enabled exactly when the name has a non-whitespace character. |
| CreateWorkoutModal.Dialog.constructor | components/CreateWorkoutModal.js:15 | The name box starts empty. |
| CreateWorkoutModal.Dialog.SetName | components/CreateWorkoutModal.js:53 | Typing sets the name. |
| CreateWorkoutModal.Dialog.HandleCreate | components/CreateWorkoutModal.js:18-30 | A blank name changes nothing and fires nothing. Otherwise it appends an empty workout under the untrimmed name, clears the box, and fires `onSuccess` (if given) and then `onClose`. |
| StorageService.StorageKeys | services/storageService.js:3-9 | The keys `clearAllData` removes are exactly the aliases' values. |
| StorageService.Resolve | services/storageService.js:18 | Resolving gives a non-empty key exactly for a non-empty argument. |
| StorageService.ResolveMeaning | services/storageService.js:3-9 | An alias resolves to its "@" key; any other string resolves to itself; resolving is idempotent. |
| StorageService.Storage.SaveData | services/storageService.js:12-25 | Succeeds exactly for a non-empty string key. It then stores the value under the resolved key; otherwise nothing changes. |
| StorageService.Storage.LoadData | services/storageService.js:27-40 | Gives null for an invalid key or nothing stored, else the value under the resolved key. |
| StorageService.Storage.RemoveData | services/storageService.js:42-55 | Succeeds exactly for a valid key, and then deletes the resolved key only. |
| StorageService.Storage.ClearAllData | services/storageService.js:57-66 | Removes exactly the five known keys. |
| StorageService.InvalidKeyChangesNothing | services/storageService.js:14-17 | An invalid key neither writes, removes nor loads anything. |
| StorageService.SaveThenLoad | services/storageService.js:12-40 | Loading after saving under the same key gives the saved value; no other key changes. |
| StorageService.AliasSharesSlot | services/storageService.js:18 | An alias and its key address the same stored value. |
| StorageService.RemoveThenLoad | services/storageService.js:42-55 | After removing, the key loads as null and every other key keeps its value. |
| StorageService.ClearRemovesKnownKeys | services/storageService.js:57-66 | Clearing removes exactly the five known keys, keeps every other key's value, and every alias then loads as null. |

## Left out

- Rendering, styling, navigation (`navigation.goBack`, `navigate`), modals' visibility, animations and the notification's fade are not modelled. Only the data each screen computes and hands on is.
- Device storage is modelled as a map, or as an `Option` slot per key for the provider. The JSON round trip of the sessions turns holes into `null`, as modelled; otherwise it is taken as exact, and the workouts' round trip is exact. The asynchronous `await`s and failed writes (the `catch` branches that log and return false or null) are left out; they need I/O.
- WorkoutContext.WorkoutProvider.SaveWorkout: the stale closure of `setWorkouts([...workouts, w])` under rapid successive saves is not modelled. Each call sees the latest list.
- WorkoutContext.WorkoutProvider.TrackSession: the same stale closure of `[...trackedSessions, session]` is not modelled. A second tap on Complete Workout before the screen re-renders appends one session in the app, but two in the model.
- Dates: `new Date().toISOString()` and `new Date(a.date)` are modelled as an integer timestamp `now` passed in. `toLocaleDateString` is modelled as a `Day(timestamp)` label.
- Numbers are naturals. `parseInt`/`Number` of arbitrary text, floating point, the `weightProgress` percentage and `formatNumber` are left out. A missing weight and a non-numeric one are both `None`.
- ProgressScreen.PersonalRecordMeaning: a `null` weight is treated as missing, so the PR is NaN. In the app, `Number(null)` is 0 (screens/ProgressScreen.js:260), so a `null` weight counts as 0 there.
- ProgressScreen.ItemStats: does not compute the `weightProgress` percentage (floating point); it only models whether the item throws.
- The dead padding in `renderExerciseItem` (lines 272-276) mutates a chart that is never used. It is not modelled.
- `STORAGE_KEYS[key]` for keys inherited from `Object.prototype` (e.g. "toString") is not modelled. Only the five own aliases resolve.
- ProgressScreen.GroupByName: record names that are inherited `Object.prototype` properties (such as "constructor" or "toString") are not modelled. For such a name, `acc[record.name]` is already truthy (screens/ProgressScreen.js:29-34), so no own group is created. A qualifying record's `.push` then throws, and a non-qualifying one is not listed. The model gives every name its own group.
- ProgressScreen.ConfirmDeleteExercise: returns the updated map. Its write to the store (`setItem("progress")`) and the closing of the confirmation dialog are left out.
- The order of `Object.values(progressData)` and `Object.keys(exerciseHistory)` is modelled as the input's sequence order and a set of names.
- Aliasing between entries of the copied session in `logSet` (the spread copy shares entry objects) is not modelled. Entries are values.
- The exercise catalog's network fetch (`exerciseAPI`), its loading state, and the planner's category browser are not modelled; the catalog is an input.
- A `Batch` element (a whole array appended by `deleteWorkout`) is modelled in the workout list, where its card throws (`ManageWorkouts.Cards`). The editor, the catalog and the tracker take a `Workout`; what they do when handed a `Batch` is not modelled.
- ManageWorkouts.Cards: `FlatList` renders only the cards near the visible window, so a throwing card far down the list may not be reached until scrolled to; the model renders every card.
- Js.ToLower: only the letters A to Z are lowercased. The other Unicode case mappings of `toLowerCase()` are not modelled, including those that change the length (such as "İ"), because strings are plain character sequences here.
- ExerciseList.FilterExercises: the search is case-insensitive only for A to Z, for the same reason.
- EditWorkout, ExerciseList, ProgressScreen and CreateWorkoutModal import `{ WorkoutContext }` by name (screens/EditWorkout.js:15, screens/ExerciseList.js:18, screens/ProgressScreen.js:17, components/CreateWorkoutModal.js:12), but context/WorkoutContext.js:77 has only a default export, so there `useContext` receives `undefined` and the destructuring throws. App.js:40-64 also registers none of the EditWorkout, ExerciseList and ProgressScreen screens. Their handlers are modelled as if the provider were reachable.
- HomeScreen and the remaining presentational components are not part of this model.

## Findings

| source | as written | input that shows it | evidently intended | confidence | as-written member | corrected member |
|---|---|---|---|---|---|---|
| screens/ExerciseTracker.js:19-33, 105-109 | `logSet` copies the session with a spread, which turns holes into `undefined`. The enable test `every(ex => ex?.sets?.every(...))` fails on `undefined`. | From an empty session, type two characters into the weight box of exercise 3. Two logSet(2, 0, …) calls leave `undefined` at indices 0 and 1, and Complete Workout stays disabled although every logged set is completed. | Complete Workout is enabled whenever every logged set is completed. | not executed | ExerciseTracker.RepeatedLogDisablesComplete | ExerciseTracker.CanCompleteFromStart |
| screens/ManageWorkouts.js:23-28, 42-43 | `deleteWorkout` hands the filtered array to `saveWorkout`, which appends it as one element. The card of that element reads `item.exercises.length`, and an array has no `exercises`. | Save one workout, open My Workouts, delete it. The list becomes `[w, [ ]]` and rendering the second card throws. | The list becomes the filtered list, without the deleted workout, and still renders. | not executed | ManageWorkouts.DeletedListThrows | ManageWorkouts.RemainingKeepsCards |
| screens/ProgressScreen.js:27-39, 255-270, 409-411 | A group is created for every record's name before the weight test. Every key is then rendered, and an empty group makes `latestRecord.sets` throw. | One progress record `{ name: "Plank", sets: [{ weight: 0, reps: 60 }] }` | Only names with at least one qualifying record are listed, and each listed item renders. | not executed | ProgressScreen.ZeroWeightRecordBreaksItem | ProgressScreen.ListedItemsRender |
