# Bank statement reader: a Dafny model

This models the logic of a browser app that reads bank statements. The user
uploads PDF or image files and an AI service pulls out the transactions.
The app then shows them as summary cards, a table that can be copied as
tab-separated text, and a spending-by-category chart. It also has a manual
entry form, a chat assistant and a lock screen (a PIN or a simulated face
scan).

There is one Dafny module per source file:

- `Types`: the `Transaction` record, plus `Option`/`Result` for absent values and thrown errors.
- `GeminiService`:
  - the file-to-parts pipeline of `analyzeStatements` and its progress reports;
  - the PDF page loop;
  - the date sort, as an in-place insertion sort on an array;
  - the mapping of error results;
  - the result of `verifyUserIdentity`.
- `TransactionSummary`: the three summary cards.
- `TransactionTable`: `convertToTSV` and `handleCopy`, with the lines and cells the export splits back into.
- `Analytics`:
  - `categoryData`: the `forEach` tally as a method with loop invariants, then the entries, slices and sort;
  - the bar widths.
- `ManualEntryModal`: the form as a class and its `handleSubmit`.
- `ChatBot`:
  - the chat state as a class, with the send guard, the fallback replies, the reset and the voice-transcript join;
  - `String.prototype.trim`;
  - the bold and line-break rewrite.
- `AuthScreen`: the lock screen as a class.
  - Each handler and effect is a method.
  - Each pending `setTimeout` callback is an entry in a `timers` queue. A method runs the timer at any index of the queue.
  - The camera request and its outcome are two separate methods.
- `App`: the import screen's state and handlers.

Amounts are whole cents (`int`). Percentages and bar widths are `real`.
Some things the model cannot compute are inputs:

- the AI service's answer;
- the date parser (`string -> Option<int>`, where `None` stands for `NaN`);
- `parseFloat`;
- the camera's answer;
- the fresh UUID;
- the manual-entry form's starting date (`today`).

## Model

| member | source | states |
|---|---|---|
| TransactionSummary.TotalIncome | components/TransactionSummary.tsx:30-32 | Total income is never negative. It is zero exactly when no amount is positive. |
| TransactionSummary.TotalSpending | components/TransactionSummary.tsx:33-35 | Total spending is never positive. It is zero exactly when no amount is negative. |
| TransactionSummary.IncomeBounds | components/TransactionSummary.tsx:30-32 | The income sum is non-negative, and zero iff every amount is at most zero. |
| TransactionSummary.SpendingBounds | components/TransactionSummary.tsx:33-35 | The spending sum is non-positive, and zero iff every amount is at least zero. |
| TransactionSummary.IncomePlusSpending | components/TransactionSummary.tsx:30-35 | Income plus spending is the net sum of all amounts. |
| TransactionSummary.ZeroAmountCountsNowhere | components/TransactionSummary.tsx:30-35 | Adding a zero-amount transaction anywhere changes neither total. |
| TransactionSummary.Summary | components/TransactionSummary.tsx:25-53 | An empty list renders nothing. Otherwise the cards show the count, the income, and the absolute spending; income minus that spending is the net sum. |
| TransactionTable.Sanitize | components/TransactionTable.tsx:20 | Each character is kept, except tab, LF and CR, each of which becomes a space. The length is unchanged. |
| TransactionTable.SanitizeHasNoControl | components/TransactionTable.tsx:20 | A sanitised value contains no tab, LF or CR. |
| TransactionTable.Fields | components/TransactionTable.tsx:17-19 | A record has the four properties the response schema requires, plus one each for an id, a note and a subscription flag when present. |
| TransactionTable.AmountText | components/TransactionTable.tsx:19 | The text of an amount is never empty. It starts with "-" iff the amount is negative, and has a decimal point iff the amount is not a whole number. It holds no tab or LF. |
| TransactionTable.Join | components/TransactionTable.tsx:16-24 | Joining adds no character other than the separator. Its inverse is `Split`, by `SplitJoin`. |
| TransactionTable.SplitJoin | components/TransactionTable.tsx:22-24 | Splitting on a separator undoes joining on it, provided no piece contains the separator. |
| TransactionTable.ConvertToTSV | components/TransactionTable.tsx:15-25 | The export starts with the header line built from the first record's keys, ended by an LF. |
| TransactionTable.TSVLines | components/TransactionTable.tsx:16-25 | The export has one more line than there are records. Line 0 is the first record's keys. Line i+1 is record i's row. |
| TransactionTable.RowCells | components/TransactionTable.tsx:18-23 | A row splits on tabs into exactly the record's sanitised values, in property order. |
| TransactionTable.HeaderKeys | components/TransactionTable.tsx:17 | The header splits on tabs into exactly the first record's keys. |
| TransactionTable.HandleCopy | components/TransactionTable.tsx:27-35 | Nothing is copied iff the table is empty. Otherwise the copied text has one line more than there are records. |
| Analytics.CategoryOf | components/Analytics.tsx:22 | The category is never empty. An empty category becomes "Other"; any other category is kept. |
| Analytics.FirstSeenFacts | components/Analytics.tsx:16-25 | The list of categories has no duplicates. A name is in it iff some expense has that category, iff spending in that category is positive. |
| Analytics.OnlyExpensesCount | components/Analytics.tsx:16 | Filtering out the non-expenses first changes no category, no sum and no total. |
| Analytics.TallyExisting | components/Analytics.tsx:23-24 | Adding an expense to an existing entry keeps every entry equal to the spending in its category, and the total equal to total spending. |
| Analytics.TallyNew | components/Analytics.tsx:23-24 | The same holds when the expense opens a new entry at the end. |
| Analytics.AddExpense | components/Analytics.tsx:20-25 | One step of the loop keeps the tally invariant: every entry is the spending in its category, in first-seen order, and the total is the sum of the entries. |
| Analytics.Accumulate | components/Analytics.tsx:16-25 | After the loop: the entry names are the expense categories in first-seen order; each value is the spending in its category; the total is the total expense, which equals the sum of the values. |
| Analytics.Percentage | components/Analytics.tsx:32 | A percentage is 0 when there is no expense. It is never negative, and positive for a positive value of a positive total. It is at most 100 for a value within the total, and exactly 100 for the whole total. |
| Analytics.SortByValueDesc | components/Analytics.tsx:34 | The result is a permutation of the slices, sorted by value from largest to smallest. |
| Analytics.InsertSorted | components/Analytics.tsx:34 | Inserting into a descending list keeps it descending. |
| Analytics.SortFacts | components/Analytics.tsx:34 | Sorting keeps the same slices and the same names, and distinct names stay distinct. |
| Analytics.SortKeepsSums | components/Analytics.tsx:34 | Sorting changes neither the sum of the values nor the sum of the percentages. |
| Analytics.SlicesSums | components/Analytics.tsx:27-33 | The slice values add up to the entry values. With a positive total, the percentages add up to the values' share of it. |
| Analytics.DataNames | components/Analytics.tsx:27-34 | The sorted slices are one per category, with distinct names. A name appears iff some expense has that category. The list is empty iff there is no expense. |
| Analytics.DataSums | components/Analytics.tsx:27-34 | The sorted slices' values add up to the total expense. When that total is positive, their percentages add up to 100. |
| Analytics.CategoryData | components/Analytics.tsx:15-35 | One slice per expense category, so the list is empty iff there is no expense. Names are distinct. Each value is the positive spending in its category, and the percentage is that value's share of the total. The colour follows the category's first-seen index. Values add up to the total expense and percentages to 100. The list is sorted from largest to smallest. |
| Analytics.MaxBarValue | components/Analytics.tsx:55 | The result is one of the values, and no value exceeds it. |
| Analytics.BarWidth | components/Analytics.tsx:112 | A width is never negative and is positive for a positive value. It is at most 100% for a value up to the largest, and exactly 100% for the largest. |
| Analytics.BarWidthsInRange | components/Analytics.tsx:55-112 | Every bar's width is greater than 0% and at most 100%. |
| GeminiService.PdfParts | services/geminiService.ts:26-44 | A PDF gives at most one part per page, each a JPEG rendered from one of its own pages. |
| GeminiService.PdfToGenerativeParts | services/geminiService.ts:20-46 | The page loop yields the parts of the page-by-page definition. |
| GeminiService.PdfPartsShape | services/geminiService.ts:26-44 | Every part is a JPEG of a page that had a context. The parts are in strictly increasing page order, there is one for each such page, and there are at most as many parts as pages, with equality when every page has a context. |
| GeminiService.FilePartsByType | services/geminiService.ts:113-124 | An image is sent once, whole, with its own MIME type. A PDF gives at most one part per page, and any type that is neither PDF nor image gives nothing. Every part of a file comes from that file. |
| GeminiService.CollectedInFileOrder | services/geminiService.ts:113-125 | Every collected part comes from a file of the batch, and the parts are grouped by file in file order. |
| GeminiService.CollectedEmpty | services/geminiService.ts:113-129 | No part is collected iff no file contributes one. |
| GeminiService.CompareDates | services/geminiService.ts:165-170 | For two parsable dates, the sign orders them by time: negative iff the first is earlier, positive iff it is later. A date that does not parse ties with everything. |
| GeminiService.CompareAntisymmetric | services/geminiService.ts:165-170 | Swapping the two records negates the comparison. |
| GeminiService.CompareNotTransitive | services/geminiService.ts:165-170 | The comparator is not transitive. A record whose date does not parse ties with a later record and with an earlier one, yet those two do not tie. |
| GeminiService.SwapAdjacent | services/geminiService.ts:165-170 | Swaps two neighbouring entries and keeps the multiset. |
| GeminiService.SortByDate | services/geminiService.ts:165-170 | The array ends up a permutation of what it was. When every date parses, it is sorted by time and every date still parses. |
| GeminiService.PrepareFiles | services/geminiService.ts:109-125 | The file loop makes one "Preparing" report per file, in order, and collects exactly each file's parts, file by file. |
| GeminiService.ReportsInOrder | services/geminiService.ts:114-160 | The preparing reports followed by the "all processed" reports never decrease, and never exceed the number of files. |
| GeminiService.SortTransactions | services/geminiService.ts:165-171 | The returned list is a permutation of the answer. When every date parses, it is sorted by time. |
| GeminiService.ParseAnswer | services/geminiService.ts:162-178 | An answer without a `transactions` array becomes the format error. An array is returned as a sorted permutation. |
| GeminiService.AnalyzeStatements | services/geminiService.ts:99-179 | See the row notes below. |
| GeminiService.VerifyUserIdentity | services/geminiService.ts:60-97 | With no key it throws the key message, and that is its only error. With a key it never fails, and it returns true only for a parsed answer whose match is `true`. |
| ManualEntryModal.NormaliseAmount | components/ManualEntryModal.tsx:25-26 | An expense becomes non-positive and an income non-negative; the magnitude is kept. |
| ManualEntryModal.NewRecord | components/ManualEntryModal.tsx:28-36 | The record copies the form fields and the fresh id, has the note "Manual Entry", and carries the normalised amount. |
| ManualEntryModal.ManualEntryForm.constructor | components/ManualEntryModal.tsx:12-17 | The form starts empty, as an expense dated today, not a subscription. |
| ManualEntryModal.ManualEntryForm.HandleSubmit | components/ManualEntryModal.tsx:21-45 | If the description, amount or category is empty, the form calls nothing and changes nothing. Otherwise it calls `onAdd` with the new record and then `onClose`, and clears every field except the date and the type. |
| ChatBot.TrimStart | components/ChatBot.tsx:74-76 | The result is the suffix left after dropping only white space. It does not start with white space. |
| ChatBot.TrimEnd | components/ChatBot.tsx:74-76 | The result is the prefix left after dropping only white space. It does not end with white space. |
| ChatBot.LeadingSpace | components/ChatBot.tsx:74-76 | What `trim` cuts off the front is white space. |
| ChatBot.Trim | components/ChatBot.tsx:74-76 | The result is the slice of the input at the leading white space, and what it drops on each side is white space. It neither starts nor ends with white space. |
| ChatBot.TrimEmpty | components/ChatBot.tsx:74 | Trimming gives "" iff the input is all white space. |
| ChatBot.TrimIdempotent | components/ChatBot.tsx:74-76 | Trimming twice is trimming once. |
| ChatBot.AppendTranscript | components/ChatBot.tsx:53-56 | The old input is kept. If it was not empty, one space follows it. Then comes the transcript. |
| ChatBot.FindClose | components/ChatBot.tsx:178 | The closing `**` found is the first one after the opening, and no line terminator lies before it. |
| ChatBot.FindCloseNone | components/ChatBot.tsx:178 | When no closing `**` is found, each later `**` has a line terminator before it, so the lazy group cannot reach it. |
| ChatBot.Bold | components/ChatBot.tsx:178 | The bold rewrite never shortens the text, and gives "" only for "". |
| ChatBot.BoldWithoutStars | components/ChatBot.tsx:178 | A text without `**` comes through the bold rewrite unchanged. |
| ChatBot.BoldKeepsLines | components/ChatBot.tsx:178 | The bold rewrite keeps the number of LFs. |
| ChatBot.BoldSpan | components/ChatBot.tsx:178 | On a single-line span, the rewrite turns `**x**` into `<strong>x</strong>`. |
| ChatBot.Br | components/ChatBot.tsx:179 | No LF remains. The length grows by 4 for each LF. |
| ChatBot.BrAppend | components/ChatBot.tsx:179 | The replacement distributes over concatenation. |
| ChatBot.Render | components/ChatBot.tsx:177-179 | A rendered message has no LF. Its length is that of the bold rewrite plus 4 for each LF of the text. |
| ChatBot.ReplyText | components/ChatBot.tsx:80-88 | A non-empty reply is shown as is. An empty one gets the fallback text, and a failure the connection message. The result is never empty. |
| ChatBot.ChatBot.constructor | components/ChatBot.tsx:19-26 | There are no messages, no input, no loading and no session. |
| ChatBot.ChatBot.ResetOnTransactions | components/ChatBot.tsx:29-38 | When the list is non-empty and the session is created, the transcript becomes the one greeting. Otherwise nothing changes. |
| ChatBot.ChatBot.OnSpeechResult | components/ChatBot.tsx:53-56 | The input becomes the old input joined with the transcript. |
| ChatBot.ChatBot.SubmitInput | components/ChatBot.tsx:73-79 | The send is refused, changing nothing, on an input that trims to empty, with no session, or while loading. Otherwise it sends the trimmed text, appends it as the user's message, clears the input and starts loading. |
| ChatBot.ChatBot.ReceiveReply | components/ChatBot.tsx:80-91 | Exactly one model message, the reply's text, is appended, and loading stops. |
| ChatBot.ChatBot.HandleSend | components/ChatBot.tsx:73-92 | Either nothing changes, or exactly two messages are appended: the user's trimmed text, then the reply. In the second case the input ends empty and loading has stopped. |
| AuthScreen.RemoveAt | components/AuthScreen.tsx:56-59 | Running a timer removes exactly that one entry from the queue. |
| AuthScreen.RemoveKeeps | components/AuthScreen.tsx:56-59 | Removing one timer keeps every other kind pending as before, and does not add a scan end. |
| AuthScreen.AuthScreen.constructor | components/AuthScreen.tsx:10-16 | The screen starts with an empty PIN, no scan, no camera and no timers, and satisfies the invariant. |
| AuthScreen.AuthScreen.NumClick | components/AuthScreen.tsx:18-23 | A digit is taken only with fewer than 4 digits and no scan running, and taking it clears the error. A 4th digit schedules authentication for PIN 1234; for any other PIN it sets the error and schedules a clear. The invariant is kept. |
| AuthScreen.AuthScreen.PinEffect | components/AuthScreen.tsx:76-86 | A full correct PIN schedules `onAuthenticated`. A full wrong PIN sets the error and schedules clearing the PIN. A shorter PIN leaves the error as it was and schedules nothing. |
| AuthScreen.AuthScreen.Delete | components/AuthScreen.tsx:25-30 | Outside a scan, drops the last digit if there is one and clears the error, then runs the PIN effect on the shorter PIN, which schedules nothing. During a scan, nothing changes. |
| AuthScreen.AuthScreen.StopCamera | components/AuthScreen.tsx:32-38 | The current stream, if any, is released, and the scan ends. |
| AuthScreen.AuthScreen.FaceAuthStart | components/AuthScreen.tsx:40-44 | Outside a scan, clears the camera error, starts the scan and asks for the camera. Otherwise nothing changes. |
| AuthScreen.AuthScreen.CameraResult | components/AuthScreen.tsx:45-66 | A stream is kept, recorded as acquired, and the end of the scan is scheduled. A refusal ends the scan, shows the camera message and schedules its clearing. |
| AuthScreen.AuthScreen.ScanDone | components/AuthScreen.tsx:56-59 | Ending the scan releases the stream and calls `onAuthenticated` once. |
| AuthScreen.AuthScreen.PinAccepted | components/AuthScreen.tsx:76-80 | A pending authentication calls `onAuthenticated` once. |
| AuthScreen.AuthScreen.PinCleared | components/AuthScreen.tsx:81-84 | A pending clear empties the PIN and runs the PIN effect on the empty PIN, which keeps the error as it was and schedules nothing. |
| AuthScreen.AuthScreen.CameraErrorCleared | components/AuthScreen.tsx:61-66 | A pending clear removes the camera error. |
| AuthScreen.AuthScreen.Unmount | components/AuthScreen.tsx:70-74 | Unmounting releases the camera, and no stream obtained is left unreleased. |
| App.App.constructor | App.tsx:11-19 | The app starts with no files, no transactions, no loading, no error and no progress. |
| App.App.HandleFileSelect | App.tsx:21-25 | The new selection replaces the old one, and the error and the table are cleared. |
| App.App.StartProcessing | App.tsx:27-36 | With no file selected, only the error is set. Otherwise loading starts, the table and the error are cleared, and progress is (0, n, "Starting analysis..."). |
| App.App.OnProgress | App.tsx:38-40 | The progress becomes exactly the reported values. |
| App.App.Finish | App.tsx:42-55 | A list fills the table, an `Error` shows its message, and anything else thrown shows the fixed message. In every case loading stops and the progress is removed. |
| App.App.HandleReset | App.tsx:58-63 | Files, table and error are cleared and loading stops. The progress is left as it was. |
| App.App.ProcessStatement | App.tsx:27-56 | See the row notes below. |

Row notes for the two longest contracts:

- `GeminiService.AnalyzeStatements`:
  - With no key it throws the key message and reports nothing.
  - Otherwise there is one "Preparing" report per file, in order.
  - If no part was collected, it throws the no-files message and sends nothing.
  - Otherwise it sends exactly the parts collected and reports "Analyzing".
  - A rejected request throws its own message.
  - Any other answer reports "Finalizing".
  - An answer without a `transactions` array throws the format message.
  - An array is returned, in an order that is a permutation of the array, sorted by date when every date parses.
  - The reported counts never decrease and never exceed the file count.
- `App.App.ProcessStatement`:
  - The analysis is the `AnalyzeStatements` model, whose every error carries a message, so it always settles as a list or an `Error`; `Finish`'s branch for a thrown non-`Error` is reached only when `Finish` is called on its own.
  - With no file selected, only the error is set.
  - Otherwise loading ends with no progress shown.
  - The error shown is, in order of precedence: the missing-key message, the no-files message, the rejection's message, or the format message.
  - On success the table holds a permutation of the answer, sorted by date when every date parses, and no error is shown.

## Left out

- Reading files as base64 and rendering PDF pages: a file is modelled as its name, its MIME type and, for a PDF, one flag per page saying whether the page got a 2D context. The bytes of a part are represented only by where they come from.
- `pdfjs.getDocument`, `getPage` and `page.render` rejecting: those errors would propagate out of `analyzeStatements`, but they are not modelled.
- A failed image read: the promise in `fileToGenerativePart` has only `resolve`, and its `onloadend` handler throws on a null result, so the promise never settles and the analysis stays pending forever, with loading never ending. This is not modelled.
- The AI calls, the prompts, the response schemas and `JSON.parse`: the result of `generateContent` and of parsing its text is an input (`Reply` and `FaceReply`).
- `new Date(...).getTime()`: an input function; `None` stands for `NaN`.
- GeminiService.SortByDate: when some date does not parse, the source's comparator is inconsistent (`CompareNotTransitive`) and the order `Array.prototype.sort` then produces depends on the engine. The model only promises a permutation in that case. The insertion sort stands in for the engine's sort; when every date parses, both give a sorted permutation.
- Analytics.SortByValueDesc: the insertion places a slice before equal values only when those came later, which matches the stable `Array.prototype.sort`. Stability itself is not stated as a contract.
- Analytics.CategoryData: `Object.entries` is taken to list categories in insertion order. In JavaScript, integer-like keys ("2024") come first in numeric order, and a category named like an `Object.prototype` member ("constructor") would read an inherited value. Neither quirk is modelled.
- The pie-slice trigonometry, the currency formatting (currency.ts), icons, the Loader, the NavBar, the FileUpload and all markup are presentation.
- TransactionTable.AmountText: `String(n)` is modelled for an amount of whole cents with at most two decimals. The text is described by its sign, its decimal point and its separators; it is not parsed back into the amount.
- TransactionTable.Fields: the keys of a record returned by the analysis are taken to come in the order of types.ts. In JavaScript they follow the order of the parsed JSON response, which the schema does not fix.
- TransactionTable.HandleCopy: the clipboard write and the two-second "copied" flag are I/O and a timer.
- ManualEntryModal: the `isOpen` prop, the field setters and the rendering are left out. The amount text's `parseFloat` is an input returning cents, so `NaN` is not modelled.
- ChatBot: the chat session and `sendMessage` are inputs (`created` and `ChatReply`). The speech recogniser, the microphone toggle, `isOpen` and scrolling are left out. The markdown rewrite is modelled on the text, not on the HTML it produces.
- AuthScreen:
  - Camera streams are opaque handles; track stopping is recorded as the list of released streams.
  - Timer delays are not modelled: any pending timer may run next, whatever its delay.
  - After unmount the handlers do nothing, because there is no button left to press; the source's handlers carry no such check. Timers already scheduled still run, and their state updates are applied.
  - The validation effect's re-run when `onAuthenticated` changes identity is left out.
  - The camera answer is an input.
- React batching: each handler sees the state as it is when it is called, and several state updates in one handler are applied in order.
- App.App.ProcessStatement: the progress reports made during the analysis are not applied one by one, because the `finally` clears the progress afterwards. `OnProgress` models one such report on its own.
- App.tsx: the rendering, and the props it passes to the components, are presentation.
- `verifyUserIdentity` is modelled on its own; nothing in the modelled files calls it.
