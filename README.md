# Document-conversion queue

A model of the conversion queue of the RAG front end. Users drop PDF, HTML or
TXT files into the converter. Each file becomes a queue item with an id, a
status (`queued`, `processing`, `completed`, `error`), a progress value and
an optional error message. A scheduling pass runs every 500 ms and starts
every queued item. Each started item gets its own progress timer. The timer
fires every 100 ms and advances the item by a randomly drawn speed. When the
run was drawn to fail, it fails the item at 60 with a parse-error message.
Otherwise it completes the item at 100. The user can remove an item, retry
one item, retry every failed item and clear completed items.

The project has four modules:

- `QueueItems` (`queue_items.dfy`): the item, what the scheduling pass, a
  retry and one timer firing do to one item, and lemmas about a run of n
  firings. These cover progress bounds, monotone progress, "a failing run
  never completes", and when a run fails or completes.
- `ArrayOps` (`array_ops.dfy`): JavaScript's `Array.prototype.map` and
  `filter` as `Map` and `Filter`, with lemmas about order, idempotence and
  partition.
- `QueueTransitions` (`queue_transitions.dfy`): every queue transition as a
  pure function from the old list to the new one, with its postconditions and
  partner lemmas.
- `ConverterComponent` (`converter.dfy`): the component's mutable state as the
  class `Converter`. It holds the `queue` list and the list of progress
  `timers` started so far. Each handler assigns the result of one transition,
  and every method keeps the invariant `Valid()`. Under `Valid()`, every item
  has the shape of its status: queued items are at 0, processing items are in
  [0, 100), completed items are at 100, and failed items are at 60 with the
  parse-error message. Every timer also has a positive speed.

Random values are parameters. The ids of new items are a sequence with one id
per file. The ids are not assumed unique, and every transition handles
duplicate ids as the code does. Each timer's `speed`, drawn from [1, 3), and
its `shouldFail` flag are a `Draw` passed to `ProcessQueue`. Progress is a
`real`.

## Model

| member | source | states |
|---|---|---|
| `QueueItems.NewItem` | components/Converter.tsx:96-101 | an admitted item carries the file and the id drawn for it, is queued, and has the shape of a queued item: progress 0, no message |
| `QueueItems.Start` | components/Converter.tsx:21-26 | the scheduling pass keeps an item's id and file and preserves its status-consistent shape |
| `QueueItems.Reset` | components/Converter.tsx:111 | a retried item keeps its id and file, is queued, and (by its shape) has progress 0 and no message |
| `QueueItems.RetryIfFailed` | components/Converter.tsx:117 | after retry-all no item is in error, and the shape invariant is kept |
| `QueueItems.Advance` | components/Converter.tsx:43-65 | one firing changes only a processing item and keeps its id and file; a processing item stays processing if and only if it neither fails (`shouldFail` and new progress > 60) nor reaches 100, and then its progress is old progress + `speed`; it goes to error if and only if it fails, and then sits at 60 with the parse-error message; it completes at 100 exactly when it reaches 100 without failing, so failure is tested first; the shape invariant, and with it 0 <= progress <= 100, is kept |
| `QueueItems.AdvanceTimes` | components/Converter.tsx:41-67 | n firings of one timer keep the item's id and file, and an item processing at the end was processing at the start |
| `QueueItems.AdvanceTimesStopped` | components/Converter.tsx:46-50 | once an item is not processing, any number of further firings leave it unchanged |
| `QueueItems.AdvanceTimesConsistent` | components/Converter.tsx:38-65 | with speed > 0, progress stays within 0..100 and the shape invariant holds after any number of firings |
| `QueueItems.AdvanceTimesProgress` | components/Converter.tsx:52-64 | while the item is still processing after n firings, its progress is the start value plus n times the speed |
| `QueueItems.AdvanceTimesMonotone` | components/Converter.tsx:52-64 | progress never decreases while processing: a firing that leaves the item processing found it processing and raised its progress |
| `QueueItems.FailingRunNeverCompletes` | components/Converter.tsx:54-62 | a run with `shouldFail` never completes an item that starts processing at or below 60, for any speed and any number of firings |
| `QueueItems.FailingRunFails` | components/Converter.tsx:54-57 | a failing run with speed > 0 ends in error at 60 with the parse-error message once n * speed exceeds 60 minus the start progress |
| `QueueItems.HealthyRunCompletes` | components/Converter.tsx:59-62 | a run without `shouldFail` and with speed > 0 completes the item at 100 once n * speed reaches 100 minus the start progress |
| `QueueItems.ScheduledItemFinishes` | components/Converter.tsx:21-65 | every item the pass starts is, after n firings with n * speed >= 100, in error at 60 if its run was drawn to fail and completed at 100 otherwise |
| `ArrayOps.Map` | components/Converter.tsx:110-112 | `Array.prototype.map`: same length, and element i of the result is the callback applied to element i |
| `ArrayOps.Filter` | components/Converter.tsx:106 | `Array.prototype.filter`: never longer than the input, and an element is in the result if and only if it is in the input and the callback keeps it |
| `ArrayOps.FilterConcat` | components/Converter.tsx:106 | filtering a concatenation filters each part, so filtering never reorders kept elements |
| `ArrayOps.FilterKeepsAll` | components/Converter.tsx:106 | a filter that keeps every element returns its input |
| `ArrayOps.FilterKeepsNone` | components/Converter.tsx:122 | a filter that keeps no element returns the empty list |
| `ArrayOps.FilterPartition` | components/Converter.tsx:122 | a filter and its complement together account for every element |
| `QueueTransitions.Appended` | components/Converter.tsx:95-103 | existing items stay in place; one item per file is appended in file order, with that file's id, status queued, progress 0 and no message; the shape invariant is kept |
| `QueueTransitions.AppendedCounts` | components/Converter.tsx:95-103 | admission adds exactly one queued item per file and no item in any other status |
| `QueueTransitions.WithoutId` | components/Converter.tsx:105-107 | an item survives removal if and only if it was in the queue and its id differs; the shape invariant is kept |
| `QueueTransitions.WithoutIdLength` | components/Converter.tsx:105-107 | the length drops by exactly the number of items carrying the id |
| `QueueTransitions.WithoutIdKeepsOrder` | components/Converter.tsx:105-107 | each item is dropped exactly when it carries the id, and the survivors keep their relative order around it |
| `QueueTransitions.WithoutAbsentId` | components/Converter.tsx:105-107 | removing an id no item carries leaves the queue unchanged |
| `QueueTransitions.Retried` | components/Converter.tsx:109-113 | the length is unchanged; every item with the id becomes queued with progress 0 and no message, keeping its file; every other item is untouched |
| `QueueTransitions.RetriedIdempotent` | components/Converter.tsx:109-113 | retrying an id twice is retrying it once |
| `QueueTransitions.AllFailedRetried` | components/Converter.tsx:115-119 | the length is unchanged; no item is left in error; only failed items change, and each becomes queued with progress 0 and no message |
| `QueueTransitions.AllFailedRetriedIdempotent` | components/Converter.tsx:115-119 | retrying all failed items twice is doing it once |
| `QueueTransitions.AllFailedRetriedCounts` | components/Converter.tsx:115-119 | the queued count grows by exactly the former error count, and the error count becomes 0 |
| `QueueTransitions.WithoutCompleted` | components/Converter.tsx:121-123 | an item survives if and only if it was in the queue and is not completed; the shape invariant is kept |
| `QueueTransitions.WithoutCompletedLength` | components/Converter.tsx:121-123 | the length drops by exactly the number of completed items |
| `QueueTransitions.WithoutCompletedKeepsOrder` | components/Converter.tsx:121-123 | every non-completed item is kept, in its original relative order |
| `QueueTransitions.WithoutCompletedIdempotent` | components/Converter.tsx:121-123 | clearing completed items twice is clearing them once |
| `QueueTransitions.Scheduled` | components/Converter.tsx:18-28 | the length is unchanged; every queued item becomes processing with progress 0; every other item is untouched; no queued item remains |
| `QueueTransitions.ScheduledCounts` | components/Converter.tsx:20-24 | there is no worker limit: the processing count grows by the whole former queued count, and the queued count becomes 0 |
| `QueueTransitions.ScheduledIdempotent` | components/Converter.tsx:18-28 | a second pass right after the first changes nothing |
| `QueueTransitions.Ticked` | components/Converter.tsx:42-66 | the length is unchanged; only items carrying the timer's id and in processing can change, each as `Advance` says; with speed > 0 the shape invariant is kept |
| `QueueTransitions.StopsTimer` | components/Converter.tsx:47-61 | the `clearInterval` condition as written: it holds if and only if some item carrying the id is outside processing after `Advance` |
| `QueueTransitions.StopsTimerIffSettled` | components/Converter.tsx:47-61 | the three `clearInterval` branches fire exactly when the firing leaves some item with the id outside processing |
| `QueueTransitions.TickedTimes` | components/Converter.tsx:41-67 | n firings of one timer keep the queue's length and leave every item with another id unchanged |
| `QueueTransitions.TickedTimesAt` | components/Converter.tsx:41-67 | n firings of one timer act on each item carrying its id exactly as n steps of that item's own run, and leave every other item unchanged |
| `QueueTransitions.RemovedItemTimerNeverStops` | components/Converter.tsx:44-50 | as written, once its item is removed, a timer's firings never change the queue and never clear the timer, for any number of firings |
| `QueueTransitions.RemovedItemTimerClears` | components/Converter.tsx:46-50 | under the corrected rule `ClearsTimer`, a removed item's timer is cleared at its next firing; the rule agrees with the original whenever some item still carries the id (both follow from the rule's definition) |
| `ConverterComponent.StartedTimers` | components/Converter.tsx:20-39 | the pass starts one live timer per queued item, in queue order: timer k is for the id of the k-th queued item (so for an item that is queued in the queue) and has the speed and failure flag drawn for it |
| `ConverterComponent.Converter.constructor` | components/Converter.tsx:14 | the component starts with an empty queue and no timers |
| `ConverterComponent.Converter.AddFilesToQueue` | components/Converter.tsx:95-103 | the queue becomes `Appended` of the old queue; timers unchanged; `Valid()` kept |
| `ConverterComponent.Converter.RemoveItem` | components/Converter.tsx:105-107 | the queue becomes `WithoutId` of the old queue; timers unchanged; `Valid()` kept |
| `ConverterComponent.Converter.RetryItem` | components/Converter.tsx:109-113 | the queue becomes `Retried` of the old queue; timers unchanged; `Valid()` kept |
| `ConverterComponent.Converter.RetryAllFailed` | components/Converter.tsx:115-119 | the queue becomes `AllFailedRetried` of the old queue; timers unchanged; `Valid()` kept |
| `ConverterComponent.Converter.ClearCompleted` | components/Converter.tsx:121-123 | the queue becomes `WithoutCompleted` of the old queue; timers unchanged; `Valid()` kept |
| `ConverterComponent.Converter.ProcessQueue` | components/Converter.tsx:18-39 | the queue becomes `Scheduled` of the old queue, one timer per queued item is appended with its draws (speed in [1, 3)), and `Valid()` is kept |
| `ConverterComponent.Converter.FireTimer` | components/Converter.tsx:41-67 | a cleared timer does nothing; a live one applies `Ticked` for its id and is cleared when its item settled or is gone; `Valid()` is kept |

## Left out

- Timing: the 500 ms and 100 ms periods of `setInterval` and the order in which the browser runs timers. Each pass and each firing is one atomic step, and any interleaving the caller chooses is allowed.
- `Math.random`: the item ids, each timer's speed and its failure flag are parameters. The model does not assume the ids are unique.
- The `File` object is reduced to its name and size. The size shown in KB, the icons, the colours, the drag-and-drop and file-input handlers, the buttons shown only for some statuses, and all JSX rendering are presentation. So is the file picker's `accept` attribute. Admission itself checks neither format nor size.
- Progress is an exact `real`; the code adds JavaScript doubles. `AdvanceTimesProgress`, `FailingRunFails`, `HealthyRunCompletes` and `ScheduledItemFinishes` hold in exact arithmetic; with rounding, the firing at which progress crosses 60 or 100 can differ by one.
- The unused local `progress` in `simulateProcessing` has no effect.
- React details: that `setQueue` updaters may run twice under strict mode, and batching of state updates.
- `ConverterComponent.Converter.FireTimer` applies the corrected clearing rule from the finding below, not the rule as written. The as-written rule is `QueueTransitions.StopsTimer`.
- The other components (chat, settings, knowledge base, dashboard, sidebar, app shell, constants) are not part of this model. They hold presentation over static data.

## Findings

| source | as written | input that shows it | evidently intended | confidence | as-written member | corrected member |
|---|---|---|---|---|---|---|
| components/Converter.tsx:44-50 | a timer is cleared only when it meets an item with its id that is no longer processing | remove an item while it is processing: no item carries the id any more, so the early return at line 44 fires for every item and the interval keeps firing every 100 ms forever | the comment at line 46 says the timer stops for a removed item; clear it when no item carries its id | medium, not executed | `QueueTransitions.RemovedItemTimerNeverStops` | `QueueTransitions.RemovedItemTimerClears` |
