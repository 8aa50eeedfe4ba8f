# Training import and upcoming-trainings cache, modelled in Dafny

The training app keeps a `training` table fed from a Google Sheet. Two
services sit on top of it:

- **`TrainingImportService::importTrainings`** reads the sheet. The first
  row holds the headers; they are lower-cased and must include `title`,
  `date`, `time`, `slots` and `price`. Each data row is then either:
  - skipped with a numbered error message: too few cells, missing
    required values, or an unparseable date or time; or
  - reconciled against the stored trainings by an identity key, the md5
    of seven raw cell texts. A stored training with that key is updated;
    otherwise a new training is created and persisted.

  The run returns `{imported, updated, skipped, errors}` and ends with one
  `flush`.
- **`TrainingCacheService`** keeps the serialized list of upcoming
  trainings under the cache key `training_list` for 900 seconds. It can be
  forced to recompute that list, or be given a list to store.

Under these are the `Training` entity, with its setters and its booking
and review collections, and the repository's upcoming query and
projection.

The project is split into modules:

- `Base`: nullable values, decimal rendering of integers, `implode` and
  `strtolower`.
- `Calendar`: dates and times of day, and the `Y-m-d` and `H:i`
  renderings together with their read-back.
- `TrainingEntity`: the `Training`, `Booking` and `TrainingReview`
  classes. `TrainingData` is the value of every field of a training at
  one moment.
- `Persistence`: the entity manager the import works through. It holds:
  - the stored trainings, in insertion order;
  - the trainings scheduled by `persist`;
  - the next auto-increment id, handed out by `flush`.

  A lookup by `googleSheetId` sees only stored rows.
- `TrainingRepository`: `findUpcomingTrainings` and `serializeTraining`,
  as functions of the stored rows.
- `TrainingCache`: the cache service, a class over a key-to-entry pool.
  The clock is logical and is passed in.
- `TrainingImport`: the import in two forms.
  - `Reconcile` is a fold over the rows' verdicts and serves as the
    specification.
  - `TrainingImportService.ImportTrainings` is the row loop over the
    entity manager, proved to follow the fold.

  The lemmas then state what a run promises.

Two fields come from the import and the repository rather than from the
entity file: `description` and `duration`. The import calls
`setDescription` and `setDuration`, and `serializeTraining` reads both.
`symfony/src/Entity/Training.php` declares neither, so the model
adds both fields to `Training`.

## Model

| member | source | states |
|---|---|---|
| TrainingImport.TrainingImportService.ImportTrainings | symfony/src/Service/TrainingImportService.php:41-179 | The returned statistics are those of `Import`. A run that passes the header checks flushes once: the table then holds the stored rows as the run updated them, followed by the new trainings with consecutive ids, and nothing stays scheduled. An empty sheet or a missing header leaves the store untouched. |
| TrainingImport.Import | symfony/src/Service/TrainingImportService.php:41-179 | A run gets as far as the flush exactly when the sheet is non-empty and no required header is missing. Otherwise all three counts are 0 and there is exactly one error: "No data found in the specified range." for an empty sheet, or "Missing required headers: " followed by the missing names. |
| TrainingImport.TrainingImportService.ImportSheet | symfony/src/Service/TrainingImportService.php:54-178 | Once the headers pass, the statistics and the flushed table are those of the fold over the sheet's verdicts, starting from zero counts. |
| TrainingImport.TrainingImportService.ImportAndFlush | symfony/src/Service/TrainingImportService.php:83-178 | The row loop followed by one flush. It leaves nothing scheduled, and the table equals the fold's stored rows plus its new rows numbered from the old next id. |
| TrainingImport.TrainingImportService.ImportRows | symfony/src/Service/TrainingImportService.php:83-174 | Given each data row's verdict, the loop over the rows keeps the statistics, the stored rows and the scheduled rows equal to the fold over the rows seen so far. It adds no stored row and changes no id. |
| TrainingImport.ImportRow | symfony/src/Service/TrainingImportService.php:84-169 | One pass of the row loop: the row is judged, and the store and statistics then equal the fold over one more row. It only schedules trainings that are fresh. |
| TrainingImport.ApplyVerdict | symfony/src/Service/TrainingImportService.php:86-169 | One row. A rejected row adds 1 to skipped and appends its message. An accepted row updates a stored training or schedules one new training. The ledger moves by exactly one `Step`. |
| TrainingImport.Upsert | symfony/src/Service/TrainingImportService.php:141-169 | Updates the stored training found by the key in place, and only it. If none is found, schedules exactly one fresh training behind the ones already waiting. |
| TrainingImport.InsertNew | symfony/src/Service/TrainingImportService.php:155-168 | A fresh training with the row's values is persisted behind the scheduled ones. The stored rows are unchanged. |
| TrainingImport.UpdateRow | symfony/src/Service/TrainingImportService.php:145-153 | Only the training at the found position changes, and it gets the update branch's fields. No other stored or scheduled row changes. |
| TrainingImport.UpdateExisting | symfony/src/Service/TrainingImportService.php:146-152 | Overwrites description, time, slots, available slots (set to the slots), price and duration. Title, date, key, id and timestamps are kept. |
| TrainingImport.CreateTraining | symfony/src/Service/TrainingImportService.php:156-165 | A fresh training with every field from the row and the identity key as its googleSheetId. Its available slots equal its slots. |
| TrainingImport.BuildColumnMap | symfony/src/Service/TrainingImportService.php:71-74 | The map the header loop builds equals `ColumnMapOf` of the lower-cased headers. |
| TrainingImport.ColumnMapOf | symfony/src/Service/TrainingImportService.php:71-74 | Every header is a key. Its column holds that header, and no later column does, so the last occurrence wins. |
| TrainingImport.MissingHeaders | symfony/src/Service/TrainingImportService.php:58-59 | A name is listed exactly when it is required and absent from the headers. |
| TrainingImport.MissingHeadersInOrder | symfony/src/Service/TrainingImportService.php:58-66 | The missing names are listed in the order of the required list. |
| TrainingImport.RequiredHeadersMapped | symfony/src/Service/TrainingImportService.php:58-74 | When no required header is missing, the column map has a column for each of the five. |
| TrainingImport.MissingFields | symfony/src/Service/TrainingImportService.php:104-110 | title, date and time are listed exactly when PHP-falsy (null, "" or "0"). slots and price are listed exactly when null or "". Every listed name is a required header. The list is empty exactly when every required value is present. |
| TrainingImport.MissingFieldsInOrder | symfony/src/Service/TrainingImportService.php:104-110 | The missing names are listed in the order title, date, time, slots, price, the order the message shows them in. |
| TrainingImport.ClassifyRow | symfony/src/Service/TrainingImportService.php:86-138 | A row is accepted only if it has at least 5 cells and every required value is present. A short row reports fewer than 5 cells. |
| TrainingImport.ClassifyRowSpec | symfony/src/Service/TrainingImportService.php:86-138 | A row is accepted exactly when it has at least 5 cells, every required value is present, and both the date and the time parse. A short row reports its own cell count. A row missing values reports all of them. A filled row whose date or time fails to parse is reported as an invalid date/time, quoting both raw texts. An accepted row carries its values, the parsed date and time, the duration (60 when absent), and the md5 of title, description, date, time, price, slots and duration as its key. |
| TrainingImport.KeyText | symfony/src/Service/TrainingImportService.php:130-138 | The identity-key text is as long as its seven parts together, and a missing description adds nothing. It starts with the title and ends with the duration text. |
| TrainingImport.KeyTextMissingDescription | symfony/src/Service/TrainingImportService.php:131-132 | A missing description gives the same key text as an empty one. |
| TrainingImport.ErrorMessage | symfony/src/Service/TrainingImportService.php:86-126 | Every row error starts with "Skipped row N: " where N is the row index plus 2. |
| TrainingImport.ErrorMessageIdentifiesRow | symfony/src/Service/TrainingImportService.php:88-124 | Every row error starts with "Skipped row N: " where N is the row index plus 2. Two equal messages come from the same row. |
| TrainingImport.SheetVerdicts | symfony/src/Service/TrainingImportService.php:54-83 | One verdict per data row: the header row is not judged. |
| TrainingImport.VerdictNamesRow | symfony/src/Service/TrainingImportService.php:88-124 | A rejected row's message starts with that row's label. |
| TrainingImport.ImportCounts | symfony/src/Service/TrainingImportService.php:83-174 | In a completed run, imported + updated + skipped is the number of data rows, and there is one error per skipped row. |
| TrainingImport.ImportErrors | symfony/src/Service/TrainingImportService.php:83-174 | In a completed run the errors are the rejected rows' messages, one per skipped row, in row order. Each names its own row, and every rejected row is reported. |
| TrainingImport.ReconcileAccounting | symfony/src/Service/TrainingImportService.php:83-174 | Over the rows, the sum of the counters grows by the number of rows, and skipped grows by the number of rejected rows. Imported and updated never decrease. The errors grow by the rejected rows' messages in row order. |
| TrainingImport.ReconcileCountersGrow | symfony/src/Service/TrainingImportService.php:83-174 | Over any number of rows, the imported and updated counters never decrease. |
| TrainingImport.RejectedRowsInOrder | symfony/src/Service/TrainingImportService.php:83-174 | The rejected rows are listed once each, in increasing order, each with its own message. Every rejected row is listed. |
| TrainingImport.Step | symfony/src/Service/TrainingImportService.php:86-169 | One row never adds or drops a stored row, and it schedules at most one new training. |
| TrainingImport.Reconcile | symfony/src/Service/TrainingImportService.php:83-174 | The row loop never adds or drops a stored row, and it schedules at most one new training per row. |
| TrainingImport.StepStats | symfony/src/Service/TrainingImportService.php:86-169 | Each row adds to exactly one counter. The sum rises by 1, and no counter falls. Skipped rises, and an error is appended, exactly when the row is rejected; a rejected row leaves imported and updated alone. |
| TrainingImport.ReconcileUpdatesInPlace | symfony/src/Service/TrainingImportService.php:145-153 | Stored rows are never added or removed. Each keeps its id, key, title, date, timestamps and collections, and a complete row stays complete. A row that changed has its available slots reset to its slots. |
| TrainingImport.ReconcileAppendsInserts | symfony/src/Service/TrainingImportService.php:155-168 | New rows are only appended to the scheduled ones, one per import. Each is complete, has no id yet, has available slots equal to its slots, and has both timestamps at the run's clock reading. |
| TrainingImport.AcceptedKeysKept | symfony/src/Service/TrainingImportService.php:141-169 | The stored keys are unchanged, scheduled keys are kept, and every accepted row's key ends up stored or scheduled. |
| TrainingImport.KnownKeysOnlyUpdate | symfony/src/Service/TrainingImportService.php:141-169 | When every accepted row's key is already stored, the loop imports nothing and updates once per accepted row. |
| TrainingImport.ReimportOnlyUpdates | symfony/src/Service/TrainingImportService.php:130-176 | Importing the same sheet again against what the first run flushed inserts nothing. It updates every row the first run imported or updated, and reports the same skipped count and the same errors. |
| Persistence.KeyIndex | symfony/src/Service/TrainingImportService.php:141-143 | A hit is a stored row carrying the key. |
| Persistence.KeyIndexFirst | symfony/src/Service/TrainingImportService.php:141-143 | The lookup returns the first stored row with the key. It finds nothing exactly when no stored row has the key. |
| Persistence.EntityManager.FindOneByGoogleSheetId | symfony/src/Service/TrainingImportService.php:141-143 | Returns null exactly when no stored training has the key, and otherwise the first one that does. A training that is only scheduled is not found. |
| Persistence.EntityManager.Persist | symfony/src/Service/TrainingImportService.php:167 | A training not yet managed is scheduled behind the others. An already managed one changes nothing. The stored rows are untouched. |
| Persistence.EntityManager.Flush | symfony/src/Service/TrainingImportService.php:176 | The scheduled trainings are appended to the table in order, each with the next id. Nothing stays scheduled, and the stored rows are unchanged. |
| Persistence.AssignIds | symfony/src/Entity/Training.php:15-18 | The flushed rows get consecutive ids from the next id on, and nothing else changes. |
| Persistence.NumberInOrder | symfony/src/Entity/Training.php:15-18 | The flush numbers the scheduled trainings in order: the j-th gets the first free id plus j, and nothing else changes. |
| Persistence.AllCompleteFlushed | symfony/src/Service/TrainingImportService.php:176 | A flush of complete rows keeps every stored row complete. |
| TrainingRepository.FindUpcomingTrainings | symfony/src/Repository/TrainingRepository.php:29-38 | The result is ordered by date and then time, and it never returns a row more often than it is stored. |
| TrainingRepository.FindUpcomingTrainingsSpec | symfony/src/Repository/TrainingRepository.php:29-38 | Returns every stored training dated today or later, as often as it is stored, and nothing else, ordered by date and then by time. |
| TrainingRepository.UpcomingCount | symfony/src/Repository/TrainingRepository.php:32-33 | The `date >= today` filter keeps every copy of an upcoming row and no copy of any other row. |
| TrainingRepository.UpcomingKeeps | symfony/src/Repository/TrainingRepository.php:32-33 | The `date >= today` filter keeps each upcoming row as often as it is stored and drops every other row. |
| TrainingRepository.SortByDateTimeSorted | symfony/src/Repository/TrainingRepository.php:34-35 | The order by date and then time sorts the rows and neither adds nor drops one. |
| TrainingRepository.InsertSorted | symfony/src/Repository/TrainingRepository.php:34-35 | Inserting into a sorted list keeps it sorted and adds exactly the inserted row. |
| TrainingRepository.SerializeTraining | symfony/src/Repository/TrainingRepository.php:46-59 | The projection's date text reads back as the stored date, and its time text as the stored hour and minute. |
| TrainingRepository.SerializeTrainingFields | symfony/src/Repository/TrainingRepository.php:46-59 | The projection's date text reads back as the stored date and its time text as the stored hour and minute. id, title, description, duration, slots, slotsAvailable and price are copied. |
| TrainingRepository.SerializeTrainingDeterminesDate | symfony/src/Repository/TrainingRepository.php:52-53 | Two trainings with the same projection share the date, the hour and the minute. |
| Calendar.ParseYmdOfFormatYmd | symfony/src/Repository/TrainingRepository.php:52 | The `Y-m-d` text of a valid date reads back as that date. |
| Calendar.FormatYmdInjective | symfony/src/Repository/TrainingRepository.php:52 | Two valid dates with the same `Y-m-d` text are the same date. |
| Calendar.ParseHiOfFormatHi | symfony/src/Repository/TrainingRepository.php:53 | The `H:i` text of a valid time reads back as its hour and minute. |
| Base.ParseNatOfNatToString | symfony/src/Service/TrainingImportService.php:88 | The decimal text of a row number reads back as that number. |
| Base.NatToStringInjective | symfony/src/Service/TrainingImportService.php:88 | Different row numbers have different decimal texts. |
| Base.Lower | symfony/src/Service/TrainingImportService.php:55 | `strtolower` keeps the length, lower-cases each ASCII capital and keeps every other character, so no ASCII capital is left. |
| Base.Join | symfony/src/Service/TrainingImportService.php:114 | `implode` of no names is the empty text, and of one name is that name. |
| Base.JoinAppend | symfony/src/Service/TrainingImportService.php:114 | `implode` of one more name appends the separator and then that name, so the names appear in list order, separated by ", ". |
| TrainingCache.TrainingCacheService.constructor | symfony/src/Service/TrainingCacheService.php:18-24 | The service keeps the injected pool as it is, which may already hold entries, and has made no query. |
| TrainingCache.TrainingCacheService.GetUpcomingTrainings | symfony/src/Service/TrainingCacheService.php:31-39 | An unexpired entry is returned as it is, with no query. Otherwise the upcoming query runs once, and its serialized result is stored for 900 seconds and returned. |
| TrainingCache.TrainingCacheService.RefreshTrainingCache | symfony/src/Service/TrainingCacheService.php:47-56 | Without a list, the query runs once whether or not the entry is fresh. With a list, that list is serialized and no query runs. Either way the result is stored for 900 seconds and returned. |
| TrainingCache.TrainingCacheService.StoreInCache | symfony/src/Service/TrainingCacheService.php:55 | Stores the serialized list under the key for the usual lifetime and returns it. The query count is unchanged. |
| TrainingCache.TrainingCacheService.IsTrainingListCached | symfony/src/Service/TrainingCacheService.php:63-66 | True exactly when the slot holds an entry that has not expired. |
| TrainingCache.TrainingCacheService.SerializeTrainings | symfony/src/Service/TrainingCacheService.php:74-81 | The loop's result is the projection list: one `serializeTraining` per training, in the same order. |
| TrainingCache.SerializedListPointwise | symfony/src/Service/TrainingCacheService.php:74-81 | The list has the input's length, and element i is the projection of training i. |
| TrainingCache.UpcomingSerializable | symfony/src/Service/TrainingCacheService.php:36-37 | Every training the upcoming query returns from stored rows has a date and a time, so it can be serialized. |
| TrainingCache.ReadTwiceWithinLifetime | symfony/src/Service/TrainingCacheService.php:31-39 | Two reads, the second within 900 seconds of a miss, return the same list, and only one query is made. |
| TrainingCache.RefreshThenRead | symfony/src/Service/TrainingCacheService.php:47-66 | After a refresh with a given list, the slot reports itself cached. A read within the lifetime returns that list, and no query is made. |
| TrainingEntity.Training.constructor | symfony/src/Entity/Training.php:53-59 | No bookings, no reviews, createdAt and updatedAt at the clock reading, every other field null. |
| TrainingEntity.Training.SetUpdatedAtValue | symfony/src/Entity/Training.php:61-65 | Only updatedAt changes, to the clock reading. |
| TrainingEntity.Training.SetGoogleSheetId | symfony/src/Entity/Training.php:77-82 | Returns the same training. Only googleSheetId changes. |
| TrainingEntity.Training.SetDate | symfony/src/Entity/Training.php:89-94 | Returns the same training. Only date changes. |
| TrainingEntity.Training.SetTime | symfony/src/Entity/Training.php:101-106 | Returns the same training. Only time changes. |
| TrainingEntity.Training.SetTitle | symfony/src/Entity/Training.php:113-118 | Returns the same training. Only title changes. |
| TrainingEntity.Training.SetSlots | symfony/src/Entity/Training.php:125-130 | Returns the same training. Only slots changes. |
| TrainingEntity.Training.SetSlotsAvailable | symfony/src/Entity/Training.php:137-142 | Returns the same training. Only slotsAvailable changes. |
| TrainingEntity.Training.SetPrice | symfony/src/Entity/Training.php:149-154 | Returns the same training. Only price changes. |
| TrainingEntity.Training.SetCreatedAt | symfony/src/Entity/Training.php:161-166 | Returns the same training. Only createdAt changes. |
| TrainingEntity.Training.SetUpdatedAt | symfony/src/Entity/Training.php:173-178 | Returns the same training. Only updatedAt changes. |
| TrainingEntity.Training.SetDescription | symfony/src/Service/TrainingImportService.php:147 | Returns the same training. Only description changes. |
| TrainingEntity.Training.SetDuration | symfony/src/Service/TrainingImportService.php:152 | Returns the same training. Only duration changes. |
| TrainingEntity.Training.AddBooking | symfony/src/Entity/Training.php:188-196 | A booking not yet present is appended and pointed back at this training. A booking already present changes nothing. The bookings never hold a duplicate. |
| TrainingEntity.Training.RemoveBooking | symfony/src/Entity/Training.php:198-208 | The booking is removed and the bookings stay duplicate-free. Its back-reference is cleared only if it was present and pointed at this training. |
| TrainingEntity.Training.AddTrainingReview | symfony/src/Entity/Training.php:218-226 | Same rule as AddBooking, for reviews. |
| TrainingEntity.Training.RemoveTrainingReview | symfony/src/Entity/Training.php:228-238 | Same rule as RemoveBooking, for reviews. |
| TrainingEntity.Booking.SetTraining | symfony/src/Entity/Training.php:192 | The booking's back-reference becomes the given training. |
| TrainingEntity.TrainingReview.SetTraining | symfony/src/Entity/Training.php:222 | The review's back-reference becomes the given training. |
| TrainingEntity.RemoveFirst | symfony/src/Entity/Training.php:200 | `removeElement` drops one occurrence: an absent element changes nothing, and otherwise the multiset loses exactly that element. |
| TrainingEntity.RemoveFirstNoDuplicates | symfony/src/Entity/Training.php:198-208 | Removing from a duplicate-free collection removes the element entirely and keeps the collection duplicate-free. |
| TrainingEntity.RemoveFirstOfAppend | symfony/src/Entity/Training.php:188-208 | Adding an absent element and then removing it restores the collection. |

## Left out

- Fetching the sheet (`GoogleSheetsService::getSheetValues`) is left out. The sheet is the input `values`: rows of optional strings.
- md5, `new \DateTime(...)`, and the `(int)` and `(float)` casts are given functions in `Env`. The model relies on none of their internals. A failed parse is `None`.
- Prices are kept as an abstract `Float` value that is stored and copied but never computed with.
- The catch-all `catch (\Exception $e)` branch of the row loop (TrainingImportService.php:170-173) is left out. No operation in the model throws: lookups, setters and `persist` always succeed. The model therefore never produces a "Row N: …" error.
- Doctrine's unit of work is reduced to a stored list, a scheduled list and an id counter, and `flush` is one commit step. Several things are therefore not modelled:
  - the `PreUpdate` callback that a flush would run on updated trainings (`SetUpdatedAtValue` is modelled as a method, but `Flush` does not call it);
  - database constraints;
  - failures of `persist` and `flush`.
- The upcoming query takes "today" as a parameter, and the cache takes the clock reading `now` as a parameter. Wall-clock time is not modelled.
- The import takes one clock reading `now` for the whole run. Every training it creates gets `now` as its createdAt and updatedAt. In PHP, each `new Training()` reads the wall clock itself (Training.php:53-59), so trainings created in one run may carry slightly different timestamps. `ReconcileAppendsInserts` states "both timestamps at `now`" under this simplification.
- TrainingRepository.SerializeTraining: requires a training with a date and a time. PHP would call `->format()` on a null date or time and throw an error (TrainingRepository.php:52-53). The model does not model that failure; it excludes the input instead. The same requirement therefore sits on `TrainingCacheService.SerializeTrainings`, `StoreInCache` and `RefreshTrainingCache` when they are given a list. Rows read back from the table always meet it (`UpcomingSerializable`), because the table's date and time columns are NOT NULL.
- TrainingCache.TrainingCacheService.IsTrainingListCached: Symfony's `hasItem` is modelled as "the slot holds an unexpired entry". Probabilistic early expiration and stampede protection of the cache pool are not modelled.
- TrainingCache.TrainingCacheService.StoreInCache: `storeInCache` is called at TrainingCacheService.php:55 but not defined in the service. It is modelled as "serialize the list, store it under the key for the same 900 seconds, and return it".
- `Booking` and `TrainingReview` are reduced to their back-reference to the training. Their other fields and their own collections are not modelled.
- The model's ghost bookkeeping is not behaviour of the source: `EntityManager.Repr` and `EntityManager.Tracked` track which trainings were handed to `persist`.
- The HTTP controllers, console commands, migrations and frontend are not part of this model.
