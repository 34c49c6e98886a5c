# Perucompras visitor import, pagination bar and credit flags, in Dafny

This project models three parts of the "manolo" visitor-records site.

- **The perucompras CSV importer** (`visitors/management/commands/import_perucompras.py`).
  - Each CSV row is read into a visit. The date and time cells go through `get_visit_date` and
    `get_time`: a cascade of `strptime` formats whose first success is re-printed as
    `YYYY-MM-DD` or `HH:MM`. The visit is then keyed by `make_hash`, the SHA-1 of its
    identifying fields run together.
  - A visit is staged unless its key was already staged in this run or is already in the
    database. The staged visits are inserted with one `bulk_create` after the loop, so an
    error in any row leaves the database untouched.
- **The pagination bar** (`Paginator.paginate_sections` in `manolo/apps/visitors/utils.py`).
  - The pages `1..n` are cut into a left window (the first five), a middle window around the
    current page and a right window (the last five), following Python's slice rules.
  - The left and middle windows, and the middle and right windows, are merged into one sorted
    run when they share a page. Otherwise they are separated by `None`.
  - The left and right windows are never compared with each other, so with fewer than ten pages
    the bar can show a page twice (see "## Findings").
- **The credit flags of `get_user_profile`** (same file): whether a subscriber's credits have
  expired or are about to expire, and how many credits the page shows.

Files:

- `results.dfy`: `Option`, the `Result` type and the two exceptions a run can raise
  (`ValueError` from `strptime`, `KeyError` from a missing column).
- `datetime.dfy`: the `strptime` recogniser for the listed formats, the `strftime` printers,
  `VisitDate` and `Time`.
  - `datetime_examples.dfy` works through concrete inputs: which format catches a string, and
    what is printed.
- `hashing.dfy`: `make_hash`. `HashInput` is the string that is hashed, and `MakeHash` is the
  imperative `+=` version proved equal to it.
- `import.dfy`: the column fallbacks, reading a row, the key of a row, the staging loop
  (`Staged`, `StepRow` and their lemmas), the `Store` class standing for the `Visitor` table,
  and `DoImport`.
- `paginator.dfy`: `PaginateSections`, its window lemmas and a corrected variant.
- `profile.dfy`: `CreditFlags` and a corrected variant.

Foreign code is passed in as parameters. `unidecode` is `fold` and SHA-1 is `digest`, both
`string -> string`, and nothing is assumed about either. Rows are maps from column name to
cell. The database is a set of keys plus the sequence of stored visitors.

## Model

| member | source | states |
|---|---|---|
| DateTime.Match | visitors/management/commands/import_perucompras.py:121-132 | `strptime` succeeds only on fields that make a real `datetime`: year 1-9999, a day that exists in its month, hour ≤ 23, minute and second ≤ 59 |
| DateTime.FirstMatch | visitors/management/commands/import_perucompras.py:120-132 | the nested try/except: a success comes from one of the listed formats, and failure happens exactly when every format fails |
| DateTime.FirstMatchWins | visitors/management/commands/import_perucompras.py:120-132 | the first format that matches decides the result, whatever later formats would give |
| DateTime.Pad | visitors/management/commands/import_perucompras.py:133 | zero-padded printing has the requested width and reads back to the number printed |
| DateTime.IsoDate | visitors/management/commands/import_perucompras.py:133 | `strftime("%Y-%m-%d")` is a zero-padded `YYYY-MM-DD` of a real day whose fields read back as year, month and day |
| DateTime.Clock | visitors/management/commands/import_perucompras.py:154 | `strftime("%H:%M")` is a zero-padded 24-hour `HH:MM` whose fields read back as the parsed hour and minute |
| DateTime.VisitDate | visitors/management/commands/import_perucompras.py:112-133 | a blank string gives ""; any other success is an ISO date; the result is a `ValueError` exactly when the string is not blank and no date format matches |
| DateTime.Time | visitors/management/commands/import_perucompras.py:136-154 | a blank string or "no iniciado" in any letter case gives ""; any other success is `HH:MM`; the result is a `ValueError` exactly when neither applies and no time format matches |
| DateTime.VisitDateFirstFormatWins | visitors/management/commands/import_perucompras.py:120-133 | the date is the printed date of the first format in the list that matches |
| DateTime.TimeFirstFormatWins | visitors/management/commands/import_perucompras.py:141-154 | the time is the printed clock of the first matching format, and its hour is the parsed `%H` |
| DateTime.MatchIgnoresMeridiem | visitors/management/commands/import_perucompras.py:141-153 | `%p` is read but never applied to `%H`: two strings that differ only in a/A/p/P letters parse identically under every format |
| DateTime.FirstMatchIgnoresMeridiem | visitors/management/commands/import_perucompras.py:141-153 | the same holds for the whole cascade |
| DateTime.TimeIgnoresMeridiem | visitors/management/commands/import_perucompras.py:136-154 | `get_time` gives the same 24-hour time for "… AM" and "… PM" |
| DateTimeExamples.ShortYearFormatsMiss | visitors/management/commands/import_perucompras.py:121-124 | `%y` takes exactly two digits, so both `%y` formats reject a four-digit year |
| DateTimeExamples.LongYearReads | visitors/management/commands/import_perucompras.py:127 | `%m/%d/%Y %H:%M` reads "MM/DD/YYYY HH:MM" month first |
| DateTimeExamples.DayFirstReads | visitors/management/commands/import_perucompras.py:132 | `%d/%m/%Y %H:%M` reads "DD/MM/YYYY HH:MM" day first |
| DateTimeExamples.MonthFirstWins | visitors/management/commands/import_perucompras.py:120-133 | every valid "NN/NN/YYYY HH:MM" is read month first by the third format |
| DateTimeExamples.DayFirstFallback | visitors/management/commands/import_perucompras.py:120-133 | when the first number exceeds 12, every month-first format fails and the day-first format decides |
| DateTimeExamples.MonthFirstExample | visitors/management/commands/import_perucompras.py:127-133 | "03/04/2020 10:00" gives "2020-03-04" |
| DateTimeExamples.DayFirstExample | visitors/management/commands/import_perucompras.py:132-133 | "25/12/2020 10:00" gives "2020-12-25" |
| DateTimeExamples.NotStartedExample | visitors/management/commands/import_perucompras.py:139-140 | "No Iniciado" and "NO INICIADO" both give an empty time |
| DateTimeExamples.ClockMeridiemWins | visitors/management/commands/import_perucompras.py:141-154 | a twelve-hour "HH:MM:SS AM/PM" falls through to `%H:%M:%S %p`, which keeps the hour as written |
| DateTimeExamples.ClockMeridiemExample | visitors/management/commands/import_perucompras.py:151-154 | "10:15:00 PM" gives "10:15" |
| Hashing.HashInput | visitors/management/commands/import_perucompras.py:157-173 | a missing institution or date raises `KeyError`, institution checked first; otherwise the input starts with the institution, ends with the date followed by the folded start time (or by nothing when that field is absent), and its length is the sum of the six parts, an absent optional field adding nothing |
| Hashing.MakeHash | visitors/management/commands/import_perucompras.py:157-178 | the `+=` accumulation raises exactly when `HashInput` does, with the same error; otherwise it returns the item with "sha1" set to the digest of `HashInput` |
| Hashing.SameFieldsSameInput | visitors/management/commands/import_perucompras.py:157-173 | items that agree on the six hashed fields (the folded ones after folding) have the same hash input |
| Hashing.OtherFieldsIgnored | visitors/management/commands/import_perucompras.py:157-173 | adding or changing any other field leaves the hash input unchanged |
| Hashing.FieldsRunTogether | visitors/management/commands/import_perucompras.py:159-173 | the fields are joined without a separator, so two different items can hash alike |
| Import.Fallback | visitors/management/commands/import_perucompras.py:88-109 | `try: … except KeyError:` over two columns: the first column decides whenever it is present, even when its value fails to parse; the second is read only when the first is missing; both missing raises `KeyError` naming the second |
| Import.VisitDateStr | visitors/management/commands/import_perucompras.py:104-109 | `get_visit_date_str` gives an ISO date or "", and its only errors are a `KeyError` naming `fecha` or a `ValueError` from the date |
| Import.TimeStart | visitors/management/commands/import_perucompras.py:88-93 | `get_time_start` gives `HH:MM` or "", and its only errors are a `KeyError` naming `hora_inicio` or a `ValueError` from the time; which column it reads (`fecha_inicio`, else `hora_inicio`) is stated by `Import.ColumnChains` |
| Import.TimeEnd | visitors/management/commands/import_perucompras.py:96-101 | `get_time_end` gives `HH:MM` or "", and its only errors are a `KeyError` naming `hora_fin` or a `ValueError` from the time; which column it reads (`fecha_fin`, else `hora_fin`) is stated by `Import.ColumnChains` |
| Import.IdDocument | visitors/management/commands/import_perucompras.py:80-85 | `get_id_document` returns the row's `id_document` when present; the result is "dni" exactly when the column is absent or holds "dni" |
| Import.ColumnChains | visitors/management/commands/import_perucompras.py:80-109 | each fallback chain raises `KeyError` for its second column exactly when both columns are missing; `fecha_inicio` feeds both the date and the start time when present; without it the date is parsed from `fecha` and the start time from `hora_inicio`; the end time is parsed from `fecha_fin` when present and from `hora_fin` otherwise |
| Import.ReadRow | visitors/management/commands/import_perucompras.py:37-50 | a row is read exactly when its date, start time, end time, name and document number all succeed; otherwise the error is that of the first failure in that order (a missing name or number column raises the `KeyError` naming it); the date, start time, end time, document type, name and number read are those values |
| Import.ItemOf | visitors/management/commands/import_perucompras.py:42-50 | the item holds every field `make_hash` reads and no "sha1" yet; its institution is "perucompras" and its document type the literal "dni", whatever the row's `id_document` |
| Import.Key | visitors/management/commands/import_perucompras.py:42-52 | the key is the digest of "perucompras", the folded name, the folded literal "dni", the folded number, the date and the folded start time |
| Import.KeyInput | visitors/management/commands/import_perucompras.py:42-51 | `make_hash` never raises on the item built from a row, and the string it hashes is "perucompras", the folded name, the folded literal "dni", the folded number, the date and the folded start time |
| Import.KeyIgnoresOtherFields | visitors/management/commands/import_perucompras.py:42-52 | visits that agree on name, number, date and start time get the same key, whatever their end time and document type |
| Import.RowKeyIgnoresOtherColumns | visitors/management/commands/import_perucompras.py:37-52 | rows that agree on the name, document number and date/start columns get the same key; company, office, reason, host and end time play no part |
| Import.NewVisitor | visitors/management/commands/import_perucompras.py:57-75 | a new row's visitor is built exactly when `empresa`, `area`, `motivo` and `contacto` are all present, the first missing one naming the `KeyError`; the host title defaults to ""; every other field is the row's column or the value read from the row, under the row's key |
| Import.StepRow | visitors/management/commands/import_perucompras.py:37-75 | one iteration: an unreadable row ends the loop with its error; a row whose key was staged earlier or is in the store adds nothing; otherwise the visitor `NewVisitor` builds from the row is appended under the row's new key, or its `KeyError` stops the run; whenever something is appended it is exactly one visitor, carrying a key not seen before |
| Import.Staged | visitors/management/commands/import_perucompras.py:36-75 | the loop stages at most one visitor per row |
| Import.StagedErrorSticks | visitors/management/commands/import_perucompras.py:36-76 | once a row raises, the whole run ends with that row's error |
| Import.StagedFreshAndDistinct | visitors/management/commands/import_perucompras.py:53-62 | the staged visitors have pairwise distinct keys, none of them already in the store |
| Import.StagedCoversRows | visitors/management/commands/import_perucompras.py:36-62 | after a successful run, every row's key is in the store or among the staged visitors |
| Import.StagedFromRows | visitors/management/commands/import_perucompras.py:52-75 | every staged visitor was built from the first row carrying its key, under that key; later rows with the same key are skipped, whatever their other columns |
| Import.KnownRowsStageNothing | visitors/management/commands/import_perucompras.py:53-57 | rows whose keys are all known stage nothing |
| Import.SecondRunStagesNothing | visitors/management/commands/import_perucompras.py:31-77 | importing the same rows again, once the first run is stored, stages nothing |
| Import.RepeatedKeyAddsNothing | visitors/management/commands/import_perucompras.py:53-54 | a row whose key an earlier row already had adds nothing |
| Import.Store.Has | visitors/management/commands/import_perucompras.py:56-57 | the filter is non-empty exactly when a stored visitor has that key |
| Import.Store.BulkCreate | visitors/management/commands/import_perucompras.py:76 | the store gains exactly the given visitors and their keys, and stays consistent |
| Import.ReadAndHash | visitors/management/commands/import_perucompras.py:37-52 | reading a row and calling `make_hash` on its item yields the row's fields and its key |
| Import.StageRow | visitors/management/commands/import_perucompras.py:53-75 | one loop iteration computes the next staging step, and the `hashes` list stays the keys of the staged visitors |
| Import.DoImport | visitors/management/commands/import_perucompras.py:31-77 | on error, returns the first failing row's error and leaves the store unchanged; otherwise the store gains exactly `Staged(rows)` and the result is how many visitors were created |
| Paginator.SortedSet | manolo/apps/visitors/utils.py:52-60 | `sorted(set(xs))` is increasing and holds exactly the elements of `xs` |
| Paginator.Index | manolo/apps/visitors/utils.py:37 | `int(page) or 1`: the index is never 0, and any other page number is kept |
| Paginator.Left | manolo/apps/visitors/utils.py:39 | the left window is pages 1-5, or all pages when there are fewer than five |
| Paginator.Middle | manolo/apps/visitors/utils.py:40 | for an accepted page p of 3 and up, the middle window runs from p-2 to p+4 (cut at the last page); on page 1 or 2 of seven pages or more the slice is empty and the fallback gives pages 1 to p+1; for an accepted page it is never empty |
| Paginator.Right | manolo/apps/visitors/utils.py:41 | the right window is the last five pages, or all pages when there are fewer than five |
| Paginator.WindowsWithin | manolo/apps/visitors/utils.py:38-41 | every window is an increasing run of pages of `1..n`, for any page number |
| Paginator.Assemble | manolo/apps/visitors/utils.py:42-62 | when the left and middle windows share no page, the bar starts with the left window followed by a separator; when the middle and right windows share no page, it ends with a separator followed by the right window; there are exactly as many separators as such disjoint neighbouring pairs, and the left and right windows are never compared |
| Paginator.PaginateSections | manolo/apps/visitors/utils.py:25-62 | every page in the bar is a page of `1..n`, for any page number |
| Paginator.AssembleProperties | manolo/apps/visitors/utils.py:42-62 | the bar shows exactly the pages of the three windows, with at most two separators and increasing runs between them |
| Paginator.BarShowsWindows | manolo/apps/visitors/utils.py:37-62 | the same for `paginate_sections`; page number 0 gives the same bar as page 1 |
| Paginator.CurrentAndEndsShown | manolo/apps/visitors/utils.py:37-62 | for an accepted page number, the first, last and current pages are all shown |
| Paginator.FewPages | manolo/apps/visitors/utils.py:58-60 | with five pages or fewer, the bar lists every page, with no separator |
| Paginator.FarFromBothEnds | manolo/apps/visitors/utils.py:49-51 | far from both ends the bar is `1-5 … p-2..p+4 … last five` |
| Paginator.NearTheStart | manolo/apps/visitors/utils.py:39-54 | on page 1 or 2 of eight pages or more, the fallback window merges into the left one: `1-5 … last five` (with eight or nine pages the two runs share pages) |
| Paginator.ManyPagesIncrease | manolo/apps/visitors/utils.py:38-62 | from ten pages on, the pages in the bar strictly increase |
| Paginator.PageShownTwice | manolo/apps/visitors/utils.py:46-57 | with nine pages, on page 1 or 9, page 5 is shown twice, with a separator in between |
| Paginator.MergedShowsEveryPageOnce | manolo/apps/visitors/utils.py:26-60 | with the left and right windows merged too, the pages of the bar strictly increase for every input; from ten pages on, the bar is that of `paginate_sections` |
| Paginator.MergedSamePages | manolo/apps/visitors/utils.py:38-62 | the merged bar shows the same pages, with at most two separators |
| Profile.CreditFlags | manolo/apps/visitors/utils.py:72-101 | only a user without a subscriber record gets the empty context |
| Profile.CreditFlagsMeaning | manolo/apps/visitors/utils.py:84-101 | expired exactly for NULL or 0 credits; about to expire exactly for any other balance up to 30, negatives included; never both; credits shown are max(credits-1, 0), or 0 for NULL credits and anonymous visitors |
| Profile.NegativeCreditsNotExpired | manolo/apps/visitors/utils.py:84-89 | a negative balance is reported as about to expire, not expired |
| Profile.CreditFlagsIntended | manolo/apps/visitors/utils.py:84-89 | the reordered tests also give the empty context only for a missing subscriber record |
| Profile.IntendedMeaning | manolo/apps/visitors/utils.py:84-101 | with the tests reordered: expired exactly when no credit is left, about to expire exactly for 1-30, never both; same result as written for every balance that is NULL or not negative |

## Left out

- Reading the CSV file (`open`, `csv.DictReader`) is not modelled: the rows are given as a sequence of maps.
- The `print` of the count is not modelled either: `DoImport` returns the count instead.
- The Django management-command wrapper (`add_arguments`, `handle`) is not modelled.
- `Import.Store`: the `Visitor` table is a set of keys plus the sequence of stored visitors. Database constraints, transactions and concurrent writers are not modelled.
- `unidecode` and SHA-1 are foreign code. They are the parameters `fold` and `digest`, and no property of either is assumed.
- Digest collisions are therefore not excluded. The staging lemmas speak of keys, not of row contents.
- The UTF-8 encoding before hashing is not modelled: `digest` takes the string.
- `DateTime.Lower`: lower-cases ASCII letters only, whereas Python's `str.lower` also folds non-ASCII letters. Only the "no iniciado" comparison depends on this.
- `DateTime.IsoDate`: pads years below 1000 to four digits. CPython's `strftime("%Y")` on glibc prints them without padding, which is platform-dependent.
- `strptime` is modelled only for the six formats the importer lists, in the C locale. `%p` means English am/pm.
- DateTime.Match: reads ASCII digits only. CPython's `strptime` patterns are not ASCII-restricted, so `\d` also matches other Unicode decimal digits (Arabic-Indic, for instance), and the source accepts dates written with them that the model rejects as a `ValueError`.
- `get_user_profile` without the request: the authentication call, `fetch_and_save_avatar`, and the `avatar` and `first_name` entries of the context are not modelled. The viewer is reduced to anonymous, a user without a subscriber record, or a subscriber's credits.
- The HTTP, MD5, base64 and database work of `fetch_and_save_avatar` is not modelled.
- `Paginator.page` and Django's paginator internals are not modelled. The page range is `1..n`, and the page number is an integer parameter, so the string parsing done by `int()` is not modelled.
- The periodic statistics task (`visitors/tasks.py`) is not part of this model.

## Findings

| source | as written | input that shows it | evidently intended | confidence | as-written member | corrected member |
|---|---|---|---|---|---|---|
| manolo/apps/visitors/utils.py:46-60 | only L∩M and M∩R are tested, never L∩R, so overlapping left and right windows stay apart | 9 pages, page 1 or page 9: the bar is 1 2 3 4 5 None 5 6 7 8 9 | the docstring says overlapping sections are merged. `PaginateSectionsMerged` also merges when L and R share a page, so every page appears once | medium, not executed | Paginator.PageShownTwice | Paginator.MergedShowsEveryPageOnce |
| manolo/apps/visitors/utils.py:84-89 | `credits <= 0` is tested after `credits <= 30`, so that branch never runs | credits = -5: `about_to_expire` is True and `expired` is False | a balance of zero or less is expired. `CreditFlagsIntended` tests `<= 0` first | medium, not executed | Profile.NegativeCreditsNotExpired | Profile.IntendedMeaning |
