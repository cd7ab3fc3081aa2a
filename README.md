# HSK vocabulary trainer — a Dafny model of its core

The HSK trainer is a browser application for learning Chinese vocabulary. This project
models its core in Dafny:

- **the library shell** (`App.tsx`): folder and search filtering of the word list, adding
  and editing words, deleting words and folders, the due count and the level histogram,
  picking the words for a review, and rescheduling words from a review's grades
  (the `again`/`hard`/`good`/`easy` interval scheduler);
- **the review session** (`components/ReviewSession.tsx`): a queue that can grow, the
  check/grade cycle, a result list in which the first grade wins, the set of passed ids,
  the progress percentage and the keyboard shortcuts;
- **the conversation lab** (`components/ConversationLab.tsx`): choosing target words,
  the automatic pick of difficult words, the fallback words and scenario, and the request
  sent for a generated dialogue; plus the audio download, which copies the decoded PCM
  string into a byte array and puts a 44-byte RIFF WAVE header in front of it;
- **the reflex lab** (`components/ReflexLab.tsx`): the same word selection, starting a chat,
  sending a message, attaching the model's evaluation to it, and the "target word used"
  marker.

The modules follow the program. `Vocabulary` holds the shared records. `Text` holds
`trim`, `toLowerCase` and `includes`. `Seqs` holds the list primitives: filter, slice,
map and a stable sort. `Scheduler`, `Library`, `Session`, `WordSelection`, `Conversation`,
`Wav` and `Reflex` hold the parts listed above. `Wrappers` holds `Option` and `Result`.

Component state that the handlers update is a `class`: `Library.App`,
`Session.ReviewSession`, `Conversation.ConversationLab` and `Reflex.ReflexLab`. Each
handler is a `method` whose `ensures` gives the whole new state in terms of the old one.
The computations behind the handlers are functions with lemmas about them, for example
the filter, the sort, the scheduler, the toggle and the header layout. The two loops of
the audio download work on `array`s, as the source does.

An `async` handler is split at its `await` into two methods:

- the first does what happens before the call and *returns the request* (`Generate`,
  `Start`, `Send`);
- the second takes the reply as an `Option`, which is `None` when the call failed
  (`OnGenerated`, `OnStartReply`, `OnSendReply`).

The database write outcome is a `saved`/`deleted` flag, and a `confirm` answer is a
`confirmed` flag. Each `Date.now()` reading and each generated id is a parameter.

Where the source disagrees with its own description, the model follows the code. The
main case is the review queue. `handleGrade` decides between "next word" and "finish"
using the queue length from *before* an `again` re-queues the word. So `again` on the
last entry ends the session at once, and the re-queued copy is never shown. A two-word
session where the second word is graded `again` finishes right there: it is not shown a
third time, as a "repeat until passed" reading suggests. `Session.AgainOnLastWordFinishes`
and `Session.GoodThenAgain` state both outcomes.

## Model

| member | source | states |
|---|---|---|
| Text.Trim | App.tsx:263 | the result has no leading or trailing whitespace; it is empty exactly when the input is blank; it is never longer than the input |
| Text.TrimSplits | App.tsx:263 | the input is a blank prefix, then the trimmed text, then a blank suffix |
| Text.TrimUnique | App.tsx:263 | any split into blank prefix, trimmed middle and blank suffix has the trim as its middle, so trimming is fully determined |
| Text.TrimIdempotent | App.tsx:263 | trimming twice is the same as trimming once |
| Text.LowerTrimCommute | App.tsx:263 | lower-casing then trimming gives the same string as trimming then lower-casing |
| Text.LowerChar | App.tsx:263 | an ASCII capital maps to its small letter, 32 code points up; every other character is unchanged |
| Text.Lower | App.tsx:266-268 | lower-casing keeps the length and maps each character by LowerChar |
| Text.Contains | App.tsx:266-268 | `includes` holds exactly when the term occurs at some position of the text |
| Seqs.Filter | App.tsx:261-262 | the result is an order-preserving sub-list holding exactly the elements that pass the test |
| Seqs.FilterCounts | components/ConversationLab.tsx:54 | a filter keeps every occurrence of a passing value and none of a failing one |
| Seqs.FilterKeepsAll | App.tsx:274 | a filter keeps the whole list exactly when every element passes |
| Seqs.FilterLengthMonotone | App.tsx:274 | a weaker test keeps at least as many elements |
| Seqs.FilterAppend | components/ConversationLab.tsx:54 | filtering a list with one element appended is the filter of the list, plus that element if it passes |
| Seqs.FilterKeepsList | components/ConversationLab.tsx:54 | a filter that every element passes returns the list itself |
| Seqs.Take | App.tsx:254 | `slice(0, n)` has length min(n, length) and agrees with the list on that prefix |
| Seqs.Map | App.tsx:230 | `map` keeps the length and applies the function at every index |
| Seqs.InsertBy | App.tsx:253 | inserting into a sorted list keeps it sorted, and no key drops below the smaller of the new key and the old head's |
| Seqs.InsertByPermutes | App.tsx:253 | inserting adds exactly the new element, as a multiset |
| Seqs.InsertByWithKey | App.tsx:253 | the inserted element comes first among the elements that share its key |
| Seqs.SortBy | App.tsx:253 | the sort returns a sorted rearrangement (same multiset) of its input |
| Seqs.SortByStable | App.tsx:253 | the sort is stable: elements with equal keys keep their relative order |
| Seqs.SortedKeyOrder | App.tsx:253 | in a sorted list, an element with a smaller key sits earlier |
| Seqs.SortedPrefixEarliest | App.tsx:253-254 | an element that a prefix of a sorted list leaves out has a key at least as large as every key in the prefix |
| Scheduler.IntervalMs | App.tsx:234-241 | each grade's interval in milliseconds is exactly its day count (0.5, 1, 3, 7) times 86 400 000, and is positive |
| Scheduler.NextLevel | App.tsx:233-242 | the floored level: `again` is max(0, level-1); `hard` is min(5, level); `good` is min(5, level+1); `easy` is min(5, level+2); levels in [0, 5] stay there |
| Scheduler.Schedule | App.tsx:241-242 | a graded word changes only its level and due date; the new due date is now plus the grade's interval, strictly after now |
| Scheduler.Review | App.tsx:231-242 | a word without a result is returned unchanged; a graded word changes only its level and due date, takes the level its first grade gives, and is due after `now`; a level in [0, 5] stays there |
| Scheduler.DueDatesOrdered | App.tsx:235-241 | at one clock reading, the due dates are ordered again < hard < good < easy |
| Scheduler.FindResult | App.tsx:231 | `find` returns None exactly when no result has the id; otherwise it returns the grade of the first result with that id |
| Scheduler.ReviewFinish | App.tsx:230-243 | the list keeps its length, order and ids; a word without a result is unchanged; a graded word is scheduled by its first result at its own clock reading |
| Scheduler.ReviewFinishBounds | App.tsx:230-243 | after the review, a word that started in [0, 5] is still in [0, 5], and a graded word is due after its clock reading |
| Library.FolderWords | App.tsx:251 | the folder filter is an order-preserving sub-list of exactly the words in the selected folder (unfiled words for the "uncategorized" selection, every word for none); it is empty exactly when no word matches |
| Library.SearchTerm | App.tsx:263 | the term is the trimmed search, lower-cased; it has no blank margins, is empty exactly when the search is blank, and holds no capital A to Z |
| Library.FilteredWords | App.tsx:259-272 | the grid list is an order-preserving sub-list holding exactly the words in the folder that, for a non-blank lower-cased term, contain it in their character, pinyin or meaning |
| Library.ReviewList | App.tsx:253-254 | the review list is the due-date-sorted candidate list cut to the limit; it is sorted and a sub-multiset of the candidates |
| Library.StartReview | App.tsx:249-254 | an empty library and an empty folder are refused, each exactly in its own case; otherwise the list is sorted by due date, within the folder, a sub-multiset of it, and as long as the limit allows |
| Library.ReviewListTakesEarliest | App.tsx:253-254 | nothing the cut leaves out is due earlier than anything it keeps |
| Library.StartReviewTakesEarliest | App.tsx:249-254 | the review takes the earliest-due words of the folder |
| Library.DueCount | App.tsx:274 | the due count is at most the library size, and equals it exactly when every word is due |
| Library.DueCountMonotone | App.tsx:274 | the due count never drops as the clock advances |
| Library.LevelHistogram | App.tsx:275-279 | six bars, bar l counting the words at level l |
| Library.BarsTotal | App.tsx:275-279 | the six level counts plus the count of off-scale levels add up to the library size |
| Library.HistogramTotal | App.tsx:275-279 | the histogram's sum plus the off-scale count is the library size |
| Library.UnfileFolder | App.tsx:222 | deleting a folder keeps every word and changes only the folder of the words filed there, which becomes none |
| Library.UnfileFolderEmptiesFolder | App.tsx:222 | after the deletion no word refers to the folder |
| Library.Merge | App.tsx:86 | every key present in the patch takes the patch's value, every absent key keeps the word's value, and the empty patch changes nothing |
| Library.MergeLaws | App.tsx:86 | `{ ...w, ...p }` applied twice equals applying it once, and a patch with every field replaces the word outright |
| Library.NewWordIsBlankMerged | App.tsx:88-105 | for a form without the handler-assigned fields, the new word is the blank word with the form spread over it, so every field the form fills in is stored as given |
| Library.NewWord | App.tsx:89-105 | a new word gets the fresh id, level 0, the first clock reading as due date and the second as creation time; character, pinyin, meaning and example default to the empty string; the example pinyin and translation are always present, defaulting to the empty string; folder, type, grammar note, radical analysis and image pass through from the form |
| Library.ReplaceById | App.tsx:87 | the edit replaces every entry with the edited id and leaves the others alone, keeping length and order |
| Library.App.constructor | App.tsx:39-58 | the shell starts with the stored words and folders, nothing selected, no search, and a review limit of 20 |
| Library.App.AddWord | App.tsx:82-114 | an edit merges the patch and replaces by id; an addition prepends the new word; the form closes only after a successful save; nothing else changes |
| Library.App.DeleteWord | App.tsx:116-124 | after confirmation and a successful delete, every entry with the id is dropped; otherwise nothing changes |
| Library.App.SaveNewFolder | App.tsx:198-214 | a blank name only closes the input; a saved name appends a folder with the trimmed name and selects it; a failed save changes nothing |
| Library.App.DeleteFolder | App.tsx:216-227 | after confirmation and a successful delete, the folder is dropped, deselected if selected, and its words are unfiled; otherwise nothing changes |
| Library.App.StartReviewSession | App.tsx:249-257 | on success the review list is set and the session opens; on refusal nothing changes |
| Library.App.FinishReview | App.tsx:229-247 | the library is rescheduled from the results; the session closes only once the store write succeeds |
| Session.FirstGradesKeepsFirst | components/ReviewSession.tsx:125-131 | the recorded list has one entry per graded id, carrying the first grade that id received |
| Session.FirstGradesAppend | components/ReviewSession.tsx:126-131 | a new grade is recorded exactly when its id has no result yet |
| Session.PassedIdsAppend | components/ReviewSession.tsx:134-140 | a grade other than `again` adds its id to the passed set; `again` adds nothing |
| Session.PercentBounds | components/ReviewSession.tsx:208-212 | the percentage lies in [0, 100] and grows with the count |
| Session.QueueStep | components/ReviewSession.tsx:133-147 | re-queueing the current word and moving forward keep the queue the starting list followed by copies of its words |
| Session.QueueEntryInStart | components/ReviewSession.tsx:32 | every queue entry is one of the starting words |
| Session.GradesStep | components/ReviewSession.tsx:125-140 | one grade keeps the result list the first grade per id, the passed set the ids passed, and every grade one given to a starting word |
| Session.KeyAction | components/ReviewSession.tsx:58-81 | keys do nothing while recording or processing; before the check, Enter checks; after it, Space means again, Enter good, 1 hard and 2 easy, and nothing else acts |
| Session.ReviewSession.constructor | components/ReviewSession.tsx:32-42 | a session opens on the first word of the list, unchecked, with no results and nothing passed |
| Session.ReviewSession.ResultsKeepFirstGrade | components/ReviewSession.tsx:125-131 | in every reachable state, the result list has unique ids and gives each id its first grade |
| Session.ReviewSession.ResultsFromStart | components/ReviewSession.tsx:125-131 | in every reachable state, every recorded result is for one of the starting words |
| Session.FinishedResults | components/ReviewSession.tsx:124-152 | once every starting word has a result, the results are exactly one per distinct starting id: none for another id, as many as there are distinct ids |
| Session.ReviewSession.CompletedBound | components/ReviewSession.tsx:139 | no more ids are passed than the session has words |
| Session.ReviewSession.ProgressPercent | components/ReviewSession.tsx:208-212 | the progress is between 0 and 100 |
| Session.ReviewSession.SetInput | components/ReviewSession.tsx:34 | typing sets the answer and keeps the session invariant |
| Session.ReviewSession.HandleCheck | components/ReviewSession.tsx:110-116 | a blank answer does nothing; otherwise the answer is checked, and it is correct exactly when the trimmed answer equals the character |
| Session.ReviewSession.ShowHint | components/ReviewSession.tsx:155-157 | the hint shows the answer and counts it as not correct |
| Session.ReviewSession.RecordGrade | components/ReviewSession.tsx:125-140 | a first grade is recorded; `again` re-queues the word, any other grade passes the id; the current word then has a result, and the session invariant (including: every position before the current one has a result) holds |
| Session.ReviewSession.NextWord | components/ReviewSession.tsx:143-148 | once the current word has a result, moves to the next entry with a fresh, unchecked answer and keeps the invariant |
| Session.ReviewSession.HandleGrade | components/ReviewSession.tsx:124-153 | records and re-queues as RecordGrade does; moves on exactly when the graded position was not the last of the queue before the re-queue, and otherwise hands over exactly one result per distinct starting word and none for any other id; progress never drops |
| Session.ReviewSession.Advance | components/ReviewSession.tsx:142-152 | moves on below the given queue length, otherwise keeps the state and returns exactly one result per distinct starting word and none for any other id; the queue, results and passed set are untouched |
| Session.ReviewSession.HandleKey | components/ReviewSession.tsx:57-81 | gives the whole new state for each key: an ignored key changes nothing; Enter before the check acts as the check (nothing changes on a blank answer); a grading key records exactly that grade, with every effect HandleGrade states |
| Session.AgainOnLastWordFinishes | components/ReviewSession.tsx:133-152 | one word graded `again` is queued twice, yet the session finishes at once with that one result |
| Session.GoodThenAgain | components/ReviewSession.tsx:124-153 | good on A, then again on B, finishes with both first grades, B queued twice and only A passed, so the session ends with progress at 50% |
| Session.GradedFirstGood | components/ReviewSession.tsx:124-148 | after good on the first of two words, the session stands on the second with one result and that one id passed |
| WordSelection.DifficultWords | components/ConversationLab.tsx:48-50 | the difficult list is sorted by level and is a rearrangement of exactly the library's words of level at most 1 |
| WordSelection.DifficultWordsStable | components/ReflexLab.tsx:60-62 | words of level at most 1 that share a level keep their library order; higher levels are absent |
| WordSelection.Toggle | components/ConversationLab.tsx:52-56 | toggling flips whether the character is selected: a new one is appended once, a selected one loses every occurrence, and every other character keeps its order and its count |
| WordSelection.ToggleTwice | components/ReflexLab.tsx:64-68 | toggling an unselected character twice gives back the selection |
| WordSelection.ToggleKeepsNoDuplicates | components/ReflexLab.tsx:64-68 | toggling keeps a duplicate-free selection free of duplicates |
| WordSelection.PickDifficult | components/ConversationLab.tsx:58-61 | the pick is the characters of the first n difficult words, each from a library word of level at most 1, and all of them when there are at most n |
| WordSelection.PickDifficultLowestFirst | components/ReflexLab.tsx:70-73 | a difficult word of lower level than a picked word sits earlier in the list, so it is picked as well |
| WordSelection.WordsToUse | components/ConversationLab.tsx:65-78 | generation gets no words exactly when nothing is selected and the library is empty; a selection is used as is; otherwise the first three difficult characters when there is a difficult word, and else the characters of the first three library words |
| WordSelection.FirstCharacters | components/ConversationLab.tsx:72 | the characters of the first three library words, or of all of them when there are fewer |
| WordSelection.ChosenScenario | components/ConversationLab.tsx:64 | the preset outside custom mode; in custom mode the trimmed text, or the fallback when it is blank |
| Conversation.ConversationLab.constructor | components/ConversationLab.tsx:36-42 | the lab opens with nothing selected, the everyday-talk preset and no dialogue |
| Conversation.ConversationLab.ToggleWord | components/ConversationLab.tsx:52-56 | the selection becomes its toggle |
| Conversation.ConversationLab.MagicSelect | components/ConversationLab.tsx:58-61 | the selection becomes the first five difficult characters |
| Conversation.ConversationLab.Generate | components/ConversationLab.tsx:63-82 | with no words at all nothing changes and no request is made; otherwise the chosen words become the selection, generation starts, the dialogue is cleared and the request carries the words and the scenario |
| Conversation.ConversationLab.OnGenerated | components/ConversationLab.tsx:83-88 | a returned dialogue is shown, a failed call keeps the old one, and generation ends |
| Conversation.GenerateFromEmptySelection | components/ConversationLab.tsx:63-82 | with nothing selected, no request is made exactly when the library is empty; otherwise the request uses the first three difficult characters, or failing those the first three library characters, and the everyday-talk scenario |
| Wav.Codes | components/ConversationLab.tsx:136-138 | one byte per character, each the character code modulo 256 |
| Wav.LE16RoundTrip | components/ConversationLab.tsx:144-149 | a 16-bit little-endian field reads back as the value modulo 2^16 |
| Wav.LE32RoundTrip | components/ConversationLab.tsx:140-147 | a 32-bit little-endian field reads back as the value modulo 2^32 |
| Wav.RiffDescriptor | components/ConversationLab.tsx:139-141 | the RIFF descriptor is 12 bytes; RiffDescriptorFields states what they hold |
| Wav.FormatChunk | components/ConversationLab.tsx:142-149 | the format chunk is 24 bytes; FormatChunkBytes and FormatChunkValues state what they hold |
| Wav.DataChunkHeader | components/ConversationLab.tsx:150-151 | the data chunk header is 8 bytes; DataChunkFields states what they hold |
| Wav.WavHeader | components/ConversationLab.tsx:134-151 | the header is 44 bytes, the three chunks in order |
| Wav.RiffDescriptorFields | components/ConversationLab.tsx:139-141 | the header starts with `RIFF`, holds 36 plus the data length (mod 2^32) at byte 4, and `WAVE` at byte 8 |
| Wav.FormatChunkBytes | components/ConversationLab.tsx:142-149 | the format chunk's 24 bytes are exactly `fmt `, then 16, 1, 1, 24000, 48000, 2 and 16 in little-endian order |
| Wav.FormatChunkValues | components/ConversationLab.tsx:143-149 | the format fields read back as chunk size 16, format 1, 1 channel, 24000 Hz, 48000 bytes per second, block size 2 and 16 bits |
| Wav.FormatChunkFields | components/ConversationLab.tsx:142-149 | at their header offsets (16 to 34), the fields read back as those values |
| Wav.DataChunkFields | components/ConversationLab.tsx:150-151 | bytes 36 to 39 are `data` and byte 40 holds the data length modulo 2^32 |
| Wav.WavFile | components/ConversationLab.tsx:152 | the file is 44 bytes longer than the samples |
| Wav.WavFileSizes | components/ConversationLab.tsx:140-151 | when the sizes fit in 32 bits, the RIFF size is the file length less 8 and the data size is the sample count |
| Wav.WavFileSamples | components/ConversationLab.tsx:152 | the samples follow the header unchanged |
| Wav.WriteString | components/ConversationLab.tsx:136-138 | the loop stores the character codes from the offset on and leaves the bytes after them alone |
| Wav.SetUint16 | components/ConversationLab.tsx:144-149 | stores the 16-bit little-endian bytes at the offset and leaves the bytes after them alone |
| Wav.SetUint32 | components/ConversationLab.tsx:140-147 | stores the 32-bit little-endian bytes at the offset and leaves the bytes after them alone |
| Wav.WriteRiffDescriptor | components/ConversationLab.tsx:139-141 | the first 12 bytes become the RIFF descriptor and every later byte is kept |
| Wav.WriteFormatChunk | components/ConversationLab.tsx:142-149 | bytes 12 to 35 become the format chunk; the first 12 bytes and bytes 36 on are kept |
| Wav.WriteFormatHead | components/ConversationLab.tsx:142-145 | bytes 12 to 23 become the tag, size, format and channel count; the bytes around them are kept |
| Wav.WriteFormatRates | components/ConversationLab.tsx:146-149 | bytes 24 to 35 become the rates, block size and sample width; the bytes around them are kept |
| Wav.WriteDataChunkHeader | components/ConversationLab.tsx:150-151 | the last 8 bytes become the data chunk header and the first 36 are kept |
| Wav.BuildHeader | components/ConversationLab.tsx:134-151 | the fresh 44-byte buffer holds exactly the header for the given data length |
| Wav.DecodeSamples | components/ConversationLab.tsx:130-133 | the copy loop fills a fresh array with the character codes of the decoded string |
| Wav.DownloadFile | components/ConversationLab.tsx:130-152 | the downloaded bytes are the header for the decoded samples followed by the samples |
| Reflex.Turns | components/ReflexLab.tsx:107 | the history sent to the model has one role/text turn per chat message, in order |
| Reflex.IsUsed | components/ReflexLab.tsx:290 | a word is marked used exactly when some learner message contains it, in its text or in the model's Chinese rendering of it |
| Reflex.IsUsedGrows | components/ReflexLab.tsx:290 | a used word stays used as the chat grows |
| Reflex.SentWordIsUsed | components/ReflexLab.tsx:98-104 | a word typed in a sent message is marked used |
| Reflex.ReflexLab.constructor | components/ReflexLab.tsx:49-56 | the lab opens with nothing selected, the first preset, an empty chat and not started |
| Reflex.ReflexLab.ToggleWord | components/ReflexLab.tsx:64-68 | the selection becomes its toggle |
| Reflex.ReflexLab.SmartSelect | components/ReflexLab.tsx:70-73 | the selection becomes the first five difficult characters |
| Reflex.ReflexLab.SetInput | components/ReflexLab.tsx:281 | typing sets the message field |
| Reflex.ReflexLab.Start | components/ReflexLab.tsx:75-83 | an empty selection is replaced by the smart pick, but the request carries the selection from before that and the chosen scenario with the free-talk fallback; the lab starts thinking |
| Reflex.ReflexLab.OnStartReply | components/ReflexLab.tsx:84-93 | a reply opens the chat with the model's line; a failed call keeps it; thinking ends |
| Reflex.ReflexLab.Send | components/ReflexLab.tsx:96-109 | a blank message, or one sent while thinking, changes nothing; otherwise the field is cleared, one trimmed learner message is appended, and the request carries the whole history and the untrimmed scenario |
| Reflex.ReflexLab.OnSendReply | components/ReflexLab.tsx:111-124 | a reply attaches its evaluation to the last sent message and appends the model's line; a failed call keeps the chat; thinking ends |
| Reflex.Exchange | components/ReflexLab.tsx:75-125 | a non-blank message grows the chat by two (learner message, evaluated, then the model) on a reply and by one on a failure |

## Left out

- Text.Lower and Text.LowerChar: only the ASCII capitals A to Z are folded. `toLowerCase` also folds cased non-ASCII letters, and the search runs over pinyin and meanings that contain them (tone-marked pinyin such as Ā, Vietnamese Đ). The model does not fold these, so when such a capital appears in the search or in a word, the model can match a different set of words than the source.
- Scheduler.NextLevel: a word's level is an integer. A stored level that is NaN, or not an integer, is not modelled. The only fractional level the source produces, from `hard`, is floored before it is stored.
- Session.ReviewSession.ProgressPercent: requires a non-empty starting list, since the source divides by its length. The component does not render an empty session.
- Session.ReviewSession.HandleKey: the keyboard listener in the source is re-registered whenever one of `isChecked`, `isProcessing`, `isRecording`, `userInput`, `currentIndex` or `sessionWords` changes (components/ReviewSession.tsx:84). The case where a stale handler fires once more after the session has finished is not modelled.
- Session.ReviewSession.HandleKey: the recording state is a yes/no flag. The source's `'word' | 'example' | null`, and `isProcessing`, only gate the keys.
- Reflex.ReflexLab.OnSendReply: the source mutates the last message object of the history it sent. The model rebuilds that message by value from `sent`, so aliasing with the render-time state is not captured.
- The evaluation's `translatedUserChinese` is an `Option`, because the source reads it with optional chaining. The score is a `real` that nothing inspects.
- The pronunciation check (recording, speech evaluation, its feedback state and timers), text-to-speech, and the "play all" playback loop are not modelled. They are audio I/O.
- Rendering, colours, scrolling, modal visibility flags other than the ones the handlers set, and the review-configuration dialog are not modelled. They are UI only.
- The Gemini calls, IndexedDB and `alert` are outside the model. Each handler takes the call's outcome as a parameter (`saved`, `deleted`, a reply `Option`) and says what happens on either result. `confirm` is a `confirmed` flag.
- `generateId` and `Date.now()` are parameters. `FinishReview` takes one clock reading per word; `AddWord` takes two, one for the due date and one for the creation time.
- Data export, import and backup, the folder import, and the loading in `initApp` are not modelled. They are file and database I/O. The constructor of `Library.App` starts from the loaded words and folders.
- In the audio download, `atob` decoding of the base64 text, the `Blob`, and the link click are outside the model. `Wav.DownloadFile` starts from the decoded string and returns the file bytes.
- The guard and error path of `handleDownloadAudio` are not modelled (components/ConversationLab.tsx:125-129, 161-165): the early return when there is no dialogue or a download is running, the `isDownloading` flag set around the call, and the alert when text-to-speech returns nothing or fails. They only gate or report the audio I/O; `Wav.DownloadFile` is the path on which audio arrives.
- The add/edit form (`components/AddWordModal.tsx`) and the word card are not part of this model. The form's output enters as a `WordPatch`.
