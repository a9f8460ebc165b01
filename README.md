# sanction-check, modelled in Dafny

sanction-check screens a roster of clients against the consolidated list of
persons under EU financial sanctions. It imports the roster from a CSV or Excel
file, splitting the `IME` column into surname and given name. It reads the
sanctions list, keeps the natural persons whose alias has a Latin-script whole
name, and drops duplicate rows. Then it scores every alias against every client:
a fuzzy surname match gated at 0.80, then either a prefix fast path (given name
scored as 0.85) or a fuzzy given-name match gated at 0.70, combined 0.6 / 0.4.
Each client with a positive-scoring alias is counted and reported, together with
every alias name of the sanctioned entities it matched. The GUI drives all this
through a screening service and a download service, which main.py builds by
hand. The code also holds a small dependency-injection container, which the
application does not use.

The project has one Dafny module per source file of the core:

| module | file | model |
|---|---|---|
| `PyText` | (Python built-ins) | `str.strip`, `str.split`, `str.join`, `str.lower`, `str.replace`, `str(int)` on `seq<char>` |
| `Wrappers` | (none) | `Option` and `Result` |
| `Helpers` | utils/helpers.py | `is_latin`: the regular expression as a character class |
| `Ranking` | (pandas) | the boolean filter `df[score > 0]` and a descending `sort_values`, proved as a permutation |
| `SanctionsRepository` | repositories/sanctions_repository.py | `normalize`, `check_prefix_match`, `calculate_match_score`, `process_sanctions_data`, and `find_person_by_name` as a method on a class holding the alias table and its `match_score` column |
| `PersonModel` | models/person.py | `Person` and its list of matching names as classes; the constructor's signature |
| `FileRepository` | repositories/file_repository.py | `split_name_column`, the extension dispatch, the column check, the row loop and the messages of `load_people_from_file` |
| `ProcessingService` | services/processing_service.py | the bodies of `process_thread` and `load_thread`; callback calls are recorded as an event trace |
| `DownloadService` | services/download_service.py | the filename cache, `download` and the body of `download_async`'s thread |
| `DiContainer` | di_container.py | `register`, `register_instance`, and recursive `resolve` with its singleton cache |

Scores are `real`s. `fuzz.token_set_ratio` and Unicode NFKD decomposition are
parameters: the record `Foreign(tokenSetRatio, nfkd)`. The only fact assumed
about the ratio is that it lies in 0..100. The lemmas about identical names
assume, as a `requires`, that the ratio of a non-empty stripped string with
itself is 100. This holds for `token_set_ratio`. The function scores 0 when
either side has no tokens, so it does not hold for a string of blanks, and the
lemmas do not assume it there. In the same way, what a file read returns, which the program gets from
pandas, is a parameter. It is either a table of cells, or a failure standing for
the exception it raised.

Three facts about the matcher as written:

- A fast-path name match counts 0.85 for the given name.
- No score compares against the alias's whole name: only
  `NameAlias_FirstName` and `NameAlias_MiddleName` are compared.
- An entity is matched by one alias only when that alias passes both the
  surname gate and the name gate.

## Model

| member | source | states |
|---|---|---|
| PyText.Strip | repositories/sanctions_repository.py:102 | `strip()` returns the slice of its input left after removing whitespace from both ends, and the result neither starts nor ends with whitespace |
| PyText.StripOfStripped | repositories/sanctions_repository.py:102 | stripping a string without surrounding whitespace is the identity |
| PyText.StripEmptyIffAllSpace | repositories/file_repository.py:16 | `strip()` yields "" exactly for an all-whitespace string |
| PyText.StripAppendSpace | repositories/sanctions_repository.py:170-174 | the trailing blank appended after a first name is removed again by `strip()` |
| PyText.Split | repositories/file_repository.py:16 | every token `split()` yields is non-empty and holds no whitespace |
| PyText.SplitEmptyIffAllSpace | repositories/file_repository.py:16-18 | `split()` yields no token exactly when the string is all whitespace |
| PyText.SplitHead | repositories/file_repository.py:16 | the first token of a string that starts with a non-space is its leading word |
| PyText.Word | repositories/file_repository.py:16 | a leading word is a whitespace-free prefix that ends at whitespace or at the end |
| PyText.JoinInit | repositories/file_repository.py:19 | joining n ≥ 2 strings is the join of the first n−1, the separator, and the last |
| PyText.Lower | repositories/sanctions_repository.py:102 | `lower()` keeps the length and lowers each character in place |
| PyText.LowerChar | repositories/sanctions_repository.py:102 | an upper-case ASCII letter becomes its small letter, 32 code points up; a lowered character is never an upper-case ASCII letter; ASCII stays ASCII; other characters are unchanged |
| PyText.LowerNoUpper | repositories/sanctions_repository.py:102 | lowering a string without upper-case letters is the identity |
| PyText.ReplaceChar | repositories/sanctions_repository.py:102 | `replace('-', ' ')` keeps the length and swaps exactly the hyphens |
| PyText.ReplaceAbsent | repositories/sanctions_repository.py:102 | replacing a character the string lacks is the identity |
| PyText.NatToString | repositories/file_repository.py:58-60 | `str()` of a count is a non-empty run of decimal digits with no leading zero |
| PyText.NatToStringValue | repositories/file_repository.py:58-60 | the digits `str()` writes for a count read back as that count |
| PyText.IntToString | repositories/file_repository.py:47-50 | `str()` of an integer cell starts with `-` exactly for a negative number, and its digits read back as the absolute value |
| Helpers.LatinTextIffChars | utils/helpers.py:8-10 | the anchored pattern accepts a string exactly when every character is an ASCII letter, digit or whitespace, one of the listed punctuation marks, or č, š, ć, ž |
| Helpers.NonStringRejected | utils/helpers.py:5-6 | a value that is not a string (NaN) is rejected |
| Helpers.EmptyAccepted | utils/helpers.py:8-10 | the empty string is accepted, since the pattern is starred |
| Helpers.CroatianRejected | utils/helpers.py:8 | the capitals Č, Š, Ć, Ž and both forms of đ are not in the class and are rejected |
| Helpers.LatinConcat | utils/helpers.py:8-10 | accepted strings are closed under concatenation |
| Helpers.LatinSlice | utils/helpers.py:8-10 | every slice of an accepted string is accepted |
| Ranking.PositiveMembers | repositories/sanctions_repository.py:193 | the filter `match_score > 0` keeps exactly the rows with a positive score |
| Ranking.PositiveSubMultiset | repositories/sanctions_repository.py:193 | the filter keeps each row at most as often as the table holds it |
| Ranking.PermutationOfPositive | repositories/sanctions_repository.py:193-195 | any reordering of the filtered rows has the same members as the filter |
| Ranking.FindSlot | repositories/sanctions_repository.py:193-195 | the slot of a row: every earlier row scores at least as much, the row at the slot scores less |
| Ranking.SortDescending | repositories/sanctions_repository.py:193-195 | `sort_values(ascending=False)` returns a permutation of its input in non-increasing score order |
| Ranking.RankPositive | repositories/sanctions_repository.py:193-195 | filter then sort: a permutation of the positive rows, in non-increasing order, with membership exactly "in the table and positive" |
| SanctionsRepository.AsciiOnly | repositories/sanctions_repository.py:101 | `encode('ascii', 'ignore')` keeps exactly the ASCII characters: a character is in the result exactly when it is an ASCII character of the input; the result is ASCII and no longer than the input |
| SanctionsRepository.AsciiOnlyAppend | repositories/sanctions_repository.py:101 | dropping non-ASCII characters works piecewise: that of a concatenation is the concatenation of those of the parts, so order is kept |
| SanctionsRepository.DecomposeAscii | repositories/sanctions_repository.py:100 | NFKD leaves an ASCII string unchanged |
| SanctionsRepository.AsciiOnlyAscii | repositories/sanctions_repository.py:101 | dropping non-ASCII characters leaves an ASCII string unchanged |
| SanctionsRepository.Normalize | repositories/sanctions_repository.py:97-102 | a non-string or NaN normalises to ""; every result is ASCII, has no upper-case letter and no hyphen, and neither starts nor ends with whitespace |
| SanctionsRepository.NormalizeAscii | repositories/sanctions_repository.py:97-102 | an ASCII string normalises to its lowered text with hyphens made blanks, stripped |
| SanctionsRepository.NormalFixed | repositories/sanctions_repository.py:97-102 | a string already in normal form (ASCII, no capital, no hyphen, stripped) is its own normalisation |
| SanctionsRepository.NormalizeIdempotent | repositories/sanctions_repository.py:97-102 | normalising a normalised name changes nothing |
| SanctionsRepository.CheckPrefixMatch | repositories/sanctions_repository.py:117-132 | true exactly when the short name has at least 3 characters and the long name starts with it; both are then non-empty |
| SanctionsRepository.PrefixExamples | repositories/sanctions_repository.py:126 | "ana" prefixes "analita" and "dmitrij" prefixes "dmitrijevich"; "an" is too short |
| SanctionsRepository.Similarity | repositories/sanctions_repository.py:143 | `token_set_ratio / 100.0` lies in 0..1 |
| SanctionsRepository.SurnameScore | repositories/sanctions_repository.py:139-147 | 0 unless the query surname and the alias's last name (present, normalised non-empty) are compared; a positive score is exactly their similarity, which then reaches 0.80; a similarity of at least 0.80 is kept; never strictly between 0 and 0.80 |
| SanctionsRepository.FuzzyNameScore | repositories/sanctions_repository.py:166-182 | 0 unless the query name and the alias's first and middle names (stripped, non-empty) are compared; a positive score is exactly their similarity, which then reaches 0.70; a similarity of at least 0.70 is kept |
| SanctionsRepository.MatchScore | repositories/sanctions_repository.py:134-187 | the score lies in 0..1 and is 0 or at least 0.76; it is positive exactly when the surname score is positive and the prefix fast path fires or the fuzzy name score is positive; on the fast path it is 0.6·surname + 0.4·0.85, otherwise 0.6·surname + 0.4·name |
| SanctionsRepository.IdenticalNamesMatch | repositories/sanctions_repository.py:134-187 | an alias with no middle name whose first and last names normalise to the client's name and surname scores positive |
| SanctionsRepository.IdenticalSurname | repositories/sanctions_repository.py:139-147 | an identical surname scores 1 |
| SanctionsRepository.IdenticalGivenName | repositories/sanctions_repository.py:166-182 | an identical given name, with no middle name, scores 1 in the fuzzy fallback |
| SanctionsRepository.GivenNamesOfFirstOnly | repositories/sanctions_repository.py:168-174 | without a middle name the alias is compared by its normalised first name alone (the appended blank is stripped) |
| SanctionsRepository.NaturalPersons | repositories/sanctions_repository.py:59 | the subject-type filter keeps exactly the rows of type `P` |
| SanctionsRepository.LatinRows | repositories/sanctions_repository.py:74-76 | the whole-name filter keeps exactly the rows that `is_latin` accepts |
| SanctionsRepository.ProjectAll | repositories/sanctions_repository.py:61-71 | column selection maps every row to its projection onto the name columns present |
| SanctionsRepository.Dedup | repositories/sanctions_repository.py:78 | `drop_duplicates()` leaves no row twice, has the same rows as its input, and leaves a table without repeated rows as it is |
| SanctionsRepository.DedupPrefix | repositories/sanctions_repository.py:78 | rows keep their input order: deduplicating a prefix of the table gives a prefix of the deduplicated table, so each row stands where its first occurrence puts it |
| SanctionsRepository.ProcessSanctionsData | repositories/sanctions_repository.py:44-93 | `None` exactly when the read raised, the subject-type or whole-name column is missing, or no row is a Latin-named natural person; otherwise the table keeps the name columns present, every row comes from an admitted row, every admitted row is represented, and no row is repeated |
| SanctionsRepository.DedupOfAdmitted | repositories/sanctions_repository.py:59-83 | after the filters and `drop_duplicates`, the admitted rows are exactly the kept rows |
| SanctionsRepository.AdmittedRowsKept | repositories/sanctions_repository.py:59-76 | the filter chain keeps only projections of admitted rows (with Latin names), keeps every admitted row, and is empty exactly when no row is admitted |
| SanctionsRepository.NameTable.constructor | repositories/sanctions_repository.py:95 | the table holds the processed columns and rows and no score column yet |
| SanctionsRepository.NameTable.FindPersonByName | repositories/sanctions_repository.py:95-197 | writes every row's score into `match_score`; returns a permutation of the rows that score positive, in non-increasing score order; a row is in the result exactly when it is in the table and scores positive |
| FileRepository.SplitNameColumn | repositories/file_repository.py:11-19 | the given name (the last part) never holds whitespace |
| FileRepository.NameParts | repositories/file_repository.py:16-19 | the last of whitespace-free parts is whitespace-free |
| FileRepository.SplitNameBlank | repositories/file_repository.py:17-18 | a blank full name gives an empty surname and an empty name |
| FileRepository.SplitNameSingleToken | repositories/file_repository.py:17-18 | a one-word full name is the given name, with an empty surname |
| FileRepository.SplitNameRoundTrip | repositories/file_repository.py:16-19 | for two or more words, surname + " " + name is the words joined by single blanks |
| FileRepository.NamePartsRoundTrip | repositories/file_repository.py:19 | joining all but the last part, a blank, and the last part is the join of all parts |
| FileRepository.SplitOfJoin | repositories/file_repository.py:16-19 | splitting tokens joined by blanks gives the tokens back |
| FileRepository.JoinStripped | repositories/file_repository.py:16-19 | tokens joined by blanks are already stripped, and non-empty when there is a token |
| FileRepository.SplitNameOfJoined | repositories/file_repository.py:11-19 | a name of two or more tokens joined by blanks splits into the join of all but the last token, and the last token |
| FileRepository.ImportRow | repositories/file_repository.py:46-56 | a row yields a person exactly when the constructor call binds; its given name then holds no whitespace, and its OIB and address are stripped |
| FileRepository.FloatOibGainsSuffix | repositories/file_repository.py:49 | an OIB cell read as a whole float is imported as its digits followed by ".0", which differs from the same number read as an integer |
| FileRepository.FloatTextStripped | repositories/file_repository.py:49 | `str(x).strip()` of a whole float is its digits followed by ".0" |
| FileRepository.ImportedPlusSkipped | repositories/file_repository.py:42-56 | every row is either imported or counted as skipped |
| FileRepository.AllRowsSkippedAsWritten | repositories/file_repository.py:52-55 | with `Person` as written, every row is skipped and nobody is imported |
| FileRepository.NoRowSkipped | repositories/file_repository.py:52-55 | with the `surname` parameter, every row is imported |
| FileRepository.LastIndexOf | repositories/file_repository.py:27 | the last occurrence of a character, or −1 when there is none |
| FileRepository.Extension | repositories/file_repository.py:27 | `splitext(...)[1]` is the suffix of the path from its last dot when the last path component has a dot after a non-dot character, and "" otherwise; it holds no `/` |
| FileRepository.ExtensionAfterDirectory | repositories/file_repository.py:27 | "klijenti/popis.CSV" has the extension ".CSV" |
| FileRepository.ExtensionFromLastDot | repositories/file_repository.py:27 | "a.tar.xlsx" has the extension ".xlsx" |
| FileRepository.ExtensionOfDotFile | repositories/file_repository.py:27 | a file name's leading dot does not start an extension |
| FileRepository.ExtensionDotInDirectory | repositories/file_repository.py:27 | a dot in a directory name does not start an extension |
| FileRepository.MissingColumns | repositories/file_repository.py:36-37 | the missing list names exactly the required columns IME, OIB, ADRESA that the table lacks, in that order; it is empty exactly when all three are present |
| FileRepository.LoadedMessage | repositories/file_repository.py:58-60 | the message starts with the loaded count and has the skipped-rows suffix exactly when some row was skipped |
| FileRepository.ImportRows | repositories/file_repository.py:42-56 | one fresh, distinct, zero-count person with an empty list per importable row, each holding its row's fields, in order; the count of skipped rows |
| FileRepository.LoadPeopleFromFile | repositories/file_repository.py:25-65 | an unsupported extension, a failed read or a missing column each give `None` and their message; otherwise the persons the importer builds with the corrected `Person` constructor that takes `surname` (see Findings), one per importable row, and the loaded message. As written, no row is imported: FileRepository.AllRowsSkippedAsWritten |
| PersonModel.NameList.constructor | models/person.py:7 | the list holds the given items |
| PersonModel.NameList.Append | services/processing_service.py:97 | `append` adds one item at the end |
| PersonModel.Person.constructor | models/person.py:2-7 | the fields are the arguments (the count 0 by default); a supplied list of matching names is stored as that object, an omitted one becomes a fresh empty list |
| PersonModel.FreshListsNotShared | models/person.py:7 | two persons built without a list get two different lists |
| PersonModel.SuppliedListShared | models/person.py:7 | a supplied list is stored, not copied |
| PersonModel.ImportCallFailsAsWritten | models/person.py:2 | the keyword `surname` of the importer's call is not a parameter, so the call does not bind |
| PersonModel.ImportCallBinds | repositories/file_repository.py:52 | with the `surname` parameter, the importer's call binds |
| ProcessingService.NamesOfEntities | services/processing_service.py:89-97 | a name is stored exactly when some row of a matched entity has it as whole name; no more names than rows |
| ProcessingService.NamesOfEntitiesOne | services/processing_service.py:92-97 | one row contributes its whole name exactly when its entity was matched, and nothing otherwise |
| ProcessingService.NamesOfEntitiesAppend | services/processing_service.py:92-97 | the names of a concatenation of tables are those of the first part followed by those of the second: table order and repetitions are kept |
| ProcessingService.DirectMatchesIncluded | services/processing_service.py:86-97 | the whole name of every matched alias is among the stored names |
| ProcessingService.SameIds | services/processing_service.py:82-86 | the order of the search result changes neither the hit nor the ids |
| ProcessingService.FirstHit | services/processing_service.py:82-86 | the index of the first client whose search hits, or the number of clients |
| ProcessingService.StopAt | services/processing_service.py:72-86 | the loop ends early exactly when the alias table has no entity-id column and some client's search hits, since `filtered_names['Entity_LogicalId']` then raises |
| ProcessingService.ReportedCount | services/processing_service.py:100-103 | the number of reported clients is at most the number of clients screened |
| ProcessingService.RunEventsFinished | services/processing_service.py:105-111 | a run that screens every client ends with the final progress call and the completion call |
| ProcessingService.TicksCount | services/processing_service.py:74-75 | with `on_progress`, the marks are 0 … i−1 |
| ProcessingService.PicksReported | services/processing_service.py:100-103 | with `on_match_found`, one call per reported client; without, none; every person reported is a screened, reported client |
| ProcessingService.StepMarks | services/processing_service.py:74-75 | the progress call of client k carries k |
| ProcessingService.StepCalls | services/processing_service.py:74-103 | a client's match call is made exactly when it is reported and `on_match_found` is given; its progress call carries the total |
| ProcessingService.LoopMarks | services/processing_service.py:72-75 | the screened clients' progress calls carry 0 … i−1, in order |
| ProcessingService.LoopFound | services/processing_service.py:72-103 | the screened clients' match calls are the reported clients, in roster order |
| ProcessingService.LoopMidway | services/processing_service.py:72-103 | no completion call happens inside the loop, and every progress call has the number of clients as total |
| ProcessingService.RunSplit | services/processing_service.py:60-111 | a run is the screened clients' calls followed by a tail of at most a progress call and a completion call |
| ProcessingService.TailMarks | services/processing_service.py:105-107 | the tail holds the progress call of the stopping index and no match call |
| ProcessingService.TailShape | services/processing_service.py:105-111 | only the tail's last call can be the completion call, and it is one exactly when every client was screened and `on_complete` is given |
| ProcessingService.RunProgress | services/processing_service.py:72-107 | with `on_progress`, the progress calls carry 0, 1, …, up to where the run stops, that index included; without it there are none |
| ProcessingService.RunCompletion | services/processing_service.py:74-111 | every progress call has the number of clients as total; only the last call can be the completion call; it is one exactly when every client was screened and `on_complete` is given, and then carries the number reported and the number of clients |
| ProcessingService.RunMatches | services/processing_service.py:99-103 | the match calls are the reported clients up to the stop, one each, and never more than the clients |
| ProcessingService.ReportedAreHits | services/processing_service.py:82-103 | with counters that start non-negative, the reported clients are exactly those whose search hit |
| ProcessingService.CollectNames | services/processing_service.py:89-97 | the fresh list holds the whole names of the rows of the matched entities, in table order |
| ProcessingService.Search | services/processing_service.py:78-80 | the search returns the table's positive-scoring rows for the client, in some order |
| ProcessingService.ScreenOne | services/processing_service.py:78-97 | a hit increments the count, then raises without an entity-id column, or replaces the list of matching names by a fresh one with every alias of the matched entities; a miss changes nothing |
| ProcessingService.Turn | services/processing_service.py:72-103 | one client's progress call, search and, when reported, match call |
| ProcessingService.Step | services/processing_service.py:72-103 | one turn keeps the loop's trace, report count and persons in step with the run's specification, or stops it |
| ProcessingService.Finish | services/processing_service.py:105-111 | the final progress and completion calls close the run's trace |
| ProcessingService.Screen | services/processing_service.py:68-111 | the loop makes exactly the run's callback calls and leaves every client counted and listed as the run specifies |
| ProcessingService.ProcessThread | services/processing_service.py:60-111 | without alias data, `on_complete(0, 0)` and nothing changes; otherwise the run's callback calls and the run's effect on the clients |
| ProcessingService.LoadThread | services/processing_service.py:29-34 | `on_complete` is called once with exactly what the importer returns: `None` and the unsupported-format, read-error or missing-columns message on those paths; otherwise one fresh, distinct person per importable row holding the row's fields, and the loaded message with its counts. Persons are built with the corrected `Person` constructor that takes `surname` (see Findings); as written no row is imported: FileRepository.AllRowsSkippedAsWritten |
| DownloadService.LastTruthy | services/download_service.py:27-28 | none exactly when no answer of the series is truthy; otherwise an answer of the series that is truthy and followed by no truthy answer |
| DownloadService.CacheKeepsLastSuccess | services/download_service.py:27-28 | after any series of downloads the cache holds the last truthy answer, or what it held when none was truthy |
| DownloadService.TruthyCacheStays | services/download_service.py:27-28 | once a download succeeded the cache stays truthy |
| DownloadService.DownloadService.constructor | services/download_service.py:16 | nothing is cached at first |
| DownloadService.DownloadService.Download | services/download_service.py:18-33 | returns the repository's answer unchanged; caches it only when truthy; calls `on_complete` once with it when given |
| DownloadService.DownloadService.DownloadThread | services/download_service.py:42-46 | the thread's download caches as `download` does and `on_complete` is called exactly once |
| DownloadService.FailureKeepsCache | services/download_service.py:27-28 | a failed download after a successful one keeps the earlier file name |
| DiContainer.Object.constructor | di_container.py:67 | an object records its implementation and its keyword arguments |
| DiContainer.FirstMissing | di_container.py:67 | no missing argument exactly when no parameter is both required and unannotated; otherwise one such parameter |
| DiContainer.Container.constructor | di_container.py:9-11 | both tables start empty |
| DiContainer.Container.Register | di_container.py:13-25 | the registration replaces any earlier one of the type; the cache is untouched |
| DiContainer.Container.RegisterInstance | di_container.py:27-35 | the instance is cached under the type; the registrations are untouched |
| DiContainer.Container.Resolve | di_container.py:37-72 | a cached instance is returned unchanged; an unknown type raises `ValueError`; otherwise a fresh object of the implementation, which succeeds only when no parameter is both required and unannotated (else `TypeError`), with one argument per annotated parameter, cached exactly when singleton; in a complete container (every registered implementation can be called with the annotated arguments alone, each naming a registered or cached type) a registered or cached type always resolves; every error names an unregistered, uncached type or the missing argument of a registered implementation; the cache only grows, the registrations never change |
| DiContainer.Container.ResolveArgs | di_container.py:58-64 | the annotated parameters are resolved into exactly the keyword arguments; in a complete container with every annotated type available this succeeds; an error is one of the two `resolve` raises |
| DiContainer.InstanceWins | di_container.py:48-49 | after `register_instance`, `resolve` returns that instance |
| DiContainer.UnregisteredRaises | di_container.py:51-52 | resolving a type nobody registered raises `ValueError` |
| DiContainer.SingletonCached | di_container.py:69-72 | a singleton resolved twice is the same object; in a complete container both calls succeed |
| DiContainer.TransientFresh | di_container.py:67-72 | a non-singleton resolved twice gives two different objects and never enters the cache; in a complete container both calls succeed |
| DiContainer.ReregisterAfterCache | di_container.py:22-25 | registering a cached type again does not change what `resolve` returns; in a complete container the first call succeeds |
| DiContainer.CompleteExample | di_container.py:37-72 | a container with `A` and `B` registered, `B` asking for an `A`, resolves `B` to a `BImpl` whose one argument is `a` |

## Left out

- Downloading the list (`download_sanctions_data`, HTTP, temporary files) is outside the model. Its answer is a parameter of `DownloadService.DownloadService.Download`.
- Reading files (`read_csv`, `read_excel`) is outside the model. Its result, a table or a failure, is a parameter of `LoadPeopleFromFile` and `ProcessThread`; the model does not say which other exceptions pandas would raise.
- Threads and daemon flags are left out: each thread body runs to its end, and nothing models interleaving with the GUI.
- Floating point: scores are exact reals, so rounding at the 0.80, 0.70 and 0.76 boundaries is not modelled.
- SanctionsRepository.IdenticalNamesMatch: covers aliases without a middle name only. With a middle name the compared text is the first name, a blank and the middle name, and the abstract ratio says nothing about `token_set_ratio(n, n + " " + m)`, which the library gives as 100.
- `fuzz.token_set_ratio` and NFKD are abstract parameters. NFKD is applied character by character, which agrees with the whole-string transform on what survives the ASCII filter.
- PyText.Lower: lowers ASCII letters only. Inside `normalize` this is exact, because the text is ASCII by then. For a file extension with non-ASCII capitals, only the unsupported-format message could differ.
- FileRepository.Extension: models POSIX `os.path.splitext`. On Windows, `\` is also a separator; that is not modelled.
- `print` calls are left out.
- The `isinstance(whole_name, list)` branch (services/processing_service.py:94-95) is left out. It cannot be taken: every kept whole name is a string accepted by `is_latin`.
- SanctionsRepository.NameTable.FindPersonByName: states the order only as non-increasing, because pandas' default sort is not stable. It does not fix the order among equal scores.
- Inside the sanctions table, a NaN cell and an absent column are both `None`, since the code treats them alike. The processed table's NaN entity ids are compared equal to each other as `isin` does.
- ProcessingService.Screen: the clients must be distinct objects, as the importer builds them. Two roster entries that are the same object are not modelled.
- ProcessingService.Screened: "holds a new list" is stated as "not one of the lists the run started with", not as `fresh`. It reads the heap through `reads *`.
- `Person.__str__` (models/person.py:9-10) is left out: it is display text.
- Python's `inspect.signature` is replaced by the `signatures` map of `DiContainer.Container`.
- DiContainer.Container.Resolve: requires a ghost ranking under which every registered type ranks above each type its implementation's constructor asks for. That excludes every registration table with a dependency cycle, including a cycle that the resolved type never reaches or that a cached instance cuts short. Python's `resolve` terminates on such tables; the model does not cover them.
- DiContainer.Container.Resolve: states which keyword arguments the object gets, not which object each one is.
- DiContainer.Container.ResolveArgs: when two annotated parameters would both fail, the contract does not say that the error comes from the first of them. It says only that the error is one that `resolve` raises for some type. The body resolves the parameters in order and stops at the first error, as Python does.
- FileRepository.CellText: a float cell is a whole number below 10^16 in magnitude, which Python writes as its digits followed by ".0". Fractional floats and the exponent form Python uses from 10^16 up are not modelled.
- DiContainer.FirstMissing: reports the first missing argument; Python's `TypeError` lists them all.
- interfaces.py is not part of this model: it declares only the abstract methods the concrete classes implement.
- The GUI, the controllers, the PDF exporter, config.py, main.py and utils/downloader.py are not part of this model.

## Findings

| source | as written | input that shows it | evidently intended | confidence | as-written member | corrected member |
|---|---|---|---|---|---|---|
| models/person.py:2 | `Person.__init__` has no `surname` parameter, but the importer calls `Person(name=..., surname=..., oib=..., address=...)` (repositories/file_repository.py:52), so the call raises `TypeError`, caught per row: every row is skipped and the roster loads empty | any roster file with columns IME, OIB, ADRESA and one or more rows | `Person` takes and stores `surname`, which the screening loop reads (services/processing_service.py:79) | not executed | PersonModel.ImportCallFailsAsWritten, FileRepository.AllRowsSkippedAsWritten | PersonModel.ImportCallBinds, FileRepository.NoRowSkipped |
