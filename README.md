# Five small C# console programs, modelled in Dafny

The repository holds five independent console programs. This project models the state and the
decision logic of each one and proves what their code promises.

- **WarehouseSys**: a generic `InventoryRepository<T>`, which is a dictionary from item id to item.
  It rejects duplicate ids, reports missing ids and refuses negative quantities.
  `WareHouseManager.IncreaseStock` adds to a stored quantity.
- **HealthSys**: a generic list `Repository<T>` with first-match lookup and removal.
  `HealthSystemApp` builds an index that groups prescriptions by patient id, and answers lookups from it.
- **FinanceSys**: an `Account` whose balance every transaction debits, and a `SavingsAccount` that
  refuses a debit larger than its balance. `FinanceApp.Run` records transactions in order.
- **InventorySys**: a generic `InventoryLogger<T>`, which is an in-memory log. It is saved to a file and
  restored from it.
- **GradingSys**: `Student.GetGrade` maps a score to a letter. `StudentResultProcessor.ReadStudentsFromFile`
  reads a comma-separated file line by line.

Each program is one module: `warehouse.dfy`, `health.dfy`, `finance.dfy`, `inventory.dfy` and
`grading.dfy`. Three small modules support them:

- `Wrappers` holds `Option`, `Result` and `Outcome`.
- `Int32` holds the C# `int` range and its wrap-around addition.
- `DateTimes` holds an opaque `DateTime`.

## Modelling choices

- **State in place.** Where the source mutates an object, the model is a `class`. Each method
  states its whole new state in terms of the old one:
  - the repository dictionary is a `map` field;
  - the repository and logger lists are `seq` fields;
  - the account balance is an `int` field.
- **Errors.** An exception becomes an error value. `Outcome.Fail` or `Result.Failure` carries what
  the exception's message reports: the id, or the line number.
- **Savings override.** `SavingsAccount` overrides the virtual `ApplyTransaction`. The model gives
  `Account` a constant `kind` instead, `Standard` or `Savings`. `new SavingsAccount(...)` is the
  named constructor `OpenSavings`.
- **Money.** `decimal` amounts are whole numbers of hundredths, with no bound.
- **Warehouse `int` fields.** They have type `i32`. The unchecked sum in `IncreaseStock` wraps
  around, as C# does.
- **InventorySys files.** `File.Exists`, `StreamReader` and `StreamWriter` work on a `Disk`, a map
  from path to text. The JSON serializer is a pair of function parameters, `encode` and `decode`.
  `decode` answers `Malformed`, `Null` or `Entries(list)`. An exception raised while reading or
  writing is a boolean parameter `fails`.
- **GradingSys input.** The file is the sequence of its lines. `Split(',')`, `Trim()` and
  `int.Parse` are modelled exactly enough to prove the parsing properties:
  - `Split` keeps empty parts;
  - `Trim` strips every `char.IsWhiteSpace` character;
  - `ParseInt` accepts an optional sign followed by decimal digits, and reports values out of the
    `int` range as overflows.

  The reader's loop is `ReadLines`, which is generic in the line parser. `ReadStudentsFromFile`
  runs it with `ParseLine`. By the definition of `Numbered`, element `i` of
  `Numbered(lines, ParseLine)` is `ParseLine(lines[i], i + 1)`. So the `Collect` lemmas state, line
  by line, what the reader returns.
- **Where the comments and the code disagree.** The last test in WarehouseSys `Main` carries the
  comment "Invalid quantity". It calls `IncreaseStock(Electronics, 2, -5)`, which succeeds: it sets
  the smartphone's stock from 20 to 15. `SeedAndExceptionTests` proves this. It also proves that
  a delta of -16 would be refused. The model follows the code.
- **Grades above 100.** A score above 100 gets "B". The test for "A" requires `<= 100`, and the
  next test is only `>= 70`. The model keeps this, and `GetGrade` states it.

## Model

| member | source | states |
|---|---|---|
| WarehouseSys.InventoryRepository.constructor | WarehouseSys/Program.cs:66 | a new repository is empty and satisfies the invariant that every key is its item's id |
| WarehouseSys.InventoryRepository.AddItem | WarehouseSys/Program.cs:68-75 | a duplicate id fails with `DuplicateItem(id)` and leaves the map unchanged; a fresh id is inserted under `item.id` and every other entry is kept; the id invariant is preserved |
| WarehouseSys.InventoryRepository.GetItemById | WarehouseSys/Program.cs:77-84 | fails with `ItemNotFound(id)` exactly when the id is absent; otherwise returns the stored item, whose id is `id` |
| WarehouseSys.InventoryRepository.RemoveItem | WarehouseSys/Program.cs:86-93 | an absent id fails with `ItemNotFound(id)` and changes nothing; a present id removes exactly that key and keeps all others |
| WarehouseSys.InventoryRepository.GetAllItems | WarehouseSys/Program.cs:95-98 | the list has one element per key; each element is the item stored under its id; every stored item occurs; no id repeats, so the list holds the stored values as a multiset, in no promised order |
| WarehouseSys.InventoryRepository.UpdateQuantity | WarehouseSys/Program.cs:100-113 | a negative quantity fails with `InvalidQuantity` before the id is checked; an absent id fails with `ItemNotFound`; both leave the map unchanged; otherwise only that item's quantity changes, and its id, its name and every other item stay as they were |
| WarehouseSys.IncreaseStock | WarehouseSys/Program.cs:139-151 | an absent id reports `ItemNotFound`; otherwise the new quantity is the wrapped 32-bit sum of the old quantity and the delta, which is the exact sum when it is in range; a negative sum is refused and leaves the map unchanged; a non-negative sum is stored |
| WarehouseSys.SeedAndExceptionTests | WarehouseSys/Program.cs:187-198 | after the seeding of lines 122-129, re-adding id 1 fails with `DuplicateItem(1)`, removing grocery 99 fails with `ItemNotFound(99)`, the call commented "Invalid quantity" succeeds and leaves 15 smartphones, and a delta of -16 is refused with `InvalidQuantity` |
| Int32.WrapAdd | WarehouseSys/Program.cs:144 | the result is in the `int` range, is congruent to the exact sum modulo 2^32, and equals the exact sum when that fits |
| HealthSys.FirstMatch | HealthSys/Program.cs:24 | none exactly when no element satisfies the predicate; otherwise an in-range position whose element satisfies it and before which no element does |
| HealthSys.Repository.constructor | HealthSys/Program.cs:10 | a new repository's list is empty |
| HealthSys.Repository.Add | HealthSys/Program.cs:12-15 | the new list is the old list followed by `item`, with no uniqueness check |
| HealthSys.Repository.GetAll | HealthSys/Program.cs:17-20 | the result is the stored list itself, in insertion order |
| HealthSys.Repository.GetById | HealthSys/Program.cs:22-25 | none exactly when no element matches; otherwise a matching element that is the first match in the list |
| HealthSys.Repository.Remove | HealthSys/Program.cs:27-36 | returns true exactly when some element matches; then the first match is deleted and the others keep their order; otherwise the list is unchanged |
| HealthSys.ForPatient | HealthSys/Program.cs:96-103 | the filtered list is no longer than the prescriptions, and every element belongs to the patient and comes from the prescriptions |
| HealthSys.InsertInTwoSteps | HealthSys/Program.cs:98-102 | the loop's two updates, creating an empty list if the key is absent and then appending, equal one `Insert` step |
| HealthSys.ForPatientSnoc | HealthSys/Program.cs:96-103 | one more prescription extends its own patient's list by that prescription and leaves every other patient's list as it was |
| HealthSys.ForPatientNonEmpty | HealthSys/Program.cs:98-102 | a patient's list is non-empty exactly when the patient id occurs, and empty exactly when no prescription carries it |
| HealthSys.GroupByPatientSnoc | HealthSys/Program.cs:96-103 | grouping a list with one more prescription equals one `Insert` step on the grouping of the shorter list |
| HealthSys.GroupByPatientOfPrefix | HealthSys/Program.cs:95-103 | the grouping of the empty prefix is the empty map, which `Clear` produces, and each longer prefix adds one `Insert`: the loop invariant |
| HealthSys.GroupsAreNonEmpty | HealthSys/Program.cs:98-102 | after grouping, no patient id maps to an empty list |
| HealthSys.SumLengthsUpdate | HealthSys/Program.cs:102 | replacing one list changes the sum of list lengths by the change in that list's length, when its key is counted |
| HealthSys.SumLengthsInsert | HealthSys/Program.cs:98-102 | one `Insert` step adds exactly one to the sum of list lengths, counting a newly created key |
| HealthSys.FirstSeenIdsAreKeys | HealthSys/Program.cs:95-103 | the patient ids in first-seen order are exactly the keys of the grouping |
| HealthSys.GroupsPartitionPrescriptions | HealthSys/Program.cs:95-103 | summed over the distinct patient ids, the list lengths add up to the number of prescriptions: each prescription lands in exactly one list |
| HealthSys.HealthSystemApp.constructor | HealthSys/Program.cs:76-78 | both repositories are new and empty, and the index is empty |
| HealthSys.HealthSystemApp.BuildPrescriptionMap | HealthSys/Program.cs:93-104 | the index maps exactly the patient ids present to their prescriptions in repository order; the result does not depend on the old index, so rebuilding twice is rebuilding once |
| HealthSys.HealthSystemApp.PrescriptionsForPatient | HealthSys/Program.cs:115-129 | on an up-to-date index, "no prescriptions" exactly when no prescription carries the id; otherwise the patient's non-empty list in repository order |
| HealthSys.SeededPrescriptions | HealthSys/Program.cs:86-90 | the five seeded prescriptions have distinct ids, and each belongs to one of the three seeded patients |
| HealthSys.SeedAndLookup | HealthSys/Program.cs:137-140 | after the seeding of lines 80-91 and building the index, the lookup for patient 2 gives prescriptions 3 and 5 in the order added, and the lookup for patient 9 gives "no prescriptions" |
| HealthSys.SeededGroups | HealthSys/Program.cs:86-90 | in the seeded data, patient 2's prescriptions are 3 and then 5, and no prescription belongs to patient 9 |
| FinanceSys.Account.constructor | FinanceSys/Program.cs:46-50 | a base account with the given number and opening balance |
| FinanceSys.Account.OpenSavings | FinanceSys/Program.cs:62-63 | a savings account with the given number and opening balance |
| FinanceSys.Account.ApplyTransaction | FinanceSys/Program.cs:52-76 | a base account always debits the amount, with no lower bound; a savings account keeps its balance when the amount exceeds it, and otherwise debits, leaving the balance at zero or above; the account number is a constant |
| FinanceSys.SavingsNeverOverdrawn | FinanceSys/Program.cs:65-76 | a savings account that opens at zero or above stays at zero or above after any sequence of transactions |
| FinanceSys.SavingsWithoutRefusalIsStandard | FinanceSys/Program.cs:52-76 | when the non-negative debits sum to at most the balance, a savings account ends where a base account does |
| FinanceSys.StandardDebitsEverything | FinanceSys/Program.cs:52-56 | a base account ends at its opening balance less the sum of all amounts |
| FinanceSys.FinanceApp.constructor | FinanceSys/Program.cs:82 | the transaction list starts empty |
| FinanceSys.FinanceApp.Run | FinanceSys/Program.cs:84-118 | the new savings account "ACC123" accepts debits of 200.00, 300.00 and 150.00 from 1000.00 and ends at 350.00; the three transactions are recorded after the earlier ones, in order |
| InventorySys.InventoryLogger.constructor | InventorySys/Program.cs:18-24 | an empty log bound to the given file path |
| InventorySys.InventoryLogger.Add | InventorySys/Program.cs:27-30 | the new log is the old log followed by `item` |
| InventorySys.InventoryLogger.GetAll | InventorySys/Program.cs:33-36 | a copy with the same entries in the same order |
| InventorySys.InventoryLogger.SaveToFile | InventorySys/Program.cs:39-54 | the log is never changed; on failure the disk is unchanged; otherwise the file holds the encoded log and every other file keeps its text |
| InventorySys.InventoryLogger.LoadFromFile | InventorySys/Program.cs:57-82 | a missing file, a read failure or a `null` or malformed decoding leave the log unchanged; otherwise the decoded list replaces the log entirely |
| InventorySys.InventoryLogger.ClearMemory | InventorySys/Program.cs:85-88 | the log is empty |
| InventorySys.SaveClearLoad | InventorySys/Program.cs:151-160 | with a codec whose decoding undoes its encoding, save, clear and load give back the same entries in the same order, and the file holds the encoded log |
| GradingSys.GetGrade | GradingSys/Program.cs:30-37 | "A" exactly for 80 to 100; "B" exactly for 70 to 79 and above 100; "C" for 60 to 69; "D" for 50 to 59; "F" below 50 |
| GradingSys.Split | GradingSys/Program.cs:55 | a string with n commas has n + 1 parts, empty parts included; no part contains the separator; joining the parts gives the string back |
| GradingSys.SplitWithoutSeparator | GradingSys/Program.cs:55 | a string without the separator splits into itself alone |
| GradingSys.SplitAround | GradingSys/Program.cs:55 | splitting `a` + separator + `b` concatenates the splits of `a` and `b` |
| GradingSys.SplitJoin | GradingSys/Program.cs:55 | splitting undoes joining when no part contains the separator |
| GradingSys.Trim | GradingSys/Program.cs:63-65 | the result is the slice of the input that follows the leading white space; only white space follows it in the input; it neither starts nor ends with white space |
| GradingSys.TrimPadded | GradingSys/Program.cs:63-65 | trimming a string padded with white space on both sides gives the string back, when its ends are not white space |
| GradingSys.ParseInt | GradingSys/Program.cs:63-65 | a format error exactly when the text is not a signed digit string; an overflow exactly when its value is outside the `int` range; otherwise that value |
| GradingSys.ParseDecimalText | GradingSys/Program.cs:63-65 | every `int` written in decimal parses back to itself |
| GradingSys.ParseFields | GradingSys/Program.cs:61-72 | success exactly when the id and the score both parse, and then the student has the parsed id, the name and the parsed score; a score-format error, with the line number, exactly when the id is not an integer or the id is one and the score is not; any other failure is an overflow |
| GradingSys.ParseLine | GradingSys/Program.cs:54-72 | a missing-field error exactly when the line has fewer than two commas, so an empty line is one; every error except overflow carries the line number |
| GradingSys.ExtraFieldsIgnored | GradingSys/Program.cs:55-65 | appending further fields to a line with at least three leaves its result unchanged |
| GradingSys.SplitThree | GradingSys/Program.cs:55-59 | a line built from three comma-free fields splits into exactly those fields |
| GradingSys.OnlyTrimmedFieldsMatter | GradingSys/Program.cs:61-72 | two three-field lines whose fields trim to the same strings give the same result |
| GradingSys.PaddingIgnored | GradingSys/Program.cs:63-65 | white space around each of the three fields does not change the result |
| GradingSys.WellFormedLine | GradingSys/Program.cs:55-67 | a three-field line whose trimmed id and score are integers in the `int` range is read as the student with those values and the trimmed name |
| GradingSys.SampleFields | GradingSys/Program.cs:63-65 | the fields `1`, `Ann` and `90` are already trimmed, and `1` and `90` are integer texts with values 1 and 90 |
| GradingSys.SampleLine | GradingSys/Program.cs:55-67 | the line `1,Ann,90` is read as the student with id 1, name "Ann" and score 90 |
| GradingSys.CollectStopsAtFailure | GradingSys/Program.cs:56-74 | once a line fails, the lines after it do not affect the outcome |
| GradingSys.CollectSucceeds | GradingSys/Program.cs:45-76 | the read succeeds exactly when every line does, and then gives one value per line, in file order |
| GradingSys.CollectFails | GradingSys/Program.cs:45-76 | a failed read carries the error of the first failing line, and every line before it succeeded |
| GradingSys.ReadLines | GradingSys/Program.cs:50-74 | the loop, parsing front to back with line numbers from 1 and returning at the first failure, yields the collected outcome of the numbered per-line results |
| GradingSys.ReadStudentsFromFile | GradingSys/Program.cs:43-77 | the result is the collected outcome of `ParseLine` applied to each line and its 1-based number |

## Left out

- Console output, the `Main` methods and the routines that only print are not modelled:
  `PrintAllItems`, `PrintAllPatients`, and the printing in `IncreaseStock` and `RemoveItemById`.
  `SeedAndExceptionTests`, `SeedAndLookup` and `FinanceApp.Run` replay the seeding and the calls
  that `Main` makes.
- HealthSys has an interactive loop that reads a patient id from the console. It is left out
  because it is user interface.
- `WareHouseManager.RemoveItemById` is not modelled separately. It calls `RemoveItem` and prints
  the error of its outcome.
- The `ITransactionProcessor` implementations are left out because they only print.
- `WriteReportToFile` is left out because it only formats text and writes a file.
- JSON serialization is not modelled; it is the `encode` and `decode` parameters. `StreamReader`,
  `StreamWriter` and `File.Exists` are the `Disk` map. An exception is the `fails` parameter.
- A partial write that has already reached the file before an exception is not modelled: on
  failure the disk is unchanged.
- `DateTime` values and `DateTime.Now` are opaque parameters.
- `decimal` overflow and rounding are not modelled. The amounts in the source are whole
  hundredths.
- Aliasing is not modelled. Stored items are values, so three behaviours of the source are missing:
  - `UpdateQuantity` changes a stored object that callers may also hold;
  - HealthSys `GetAll` returns the internal list, so a caller could mutate the repository through it;
  - the lists an index holds are shared objects.
- HealthSys.Repository.Remove: for a value-type `T`, `FirstOrDefault` returns `default` when
  nothing matches, and `item != null` is then true. `List.Remove` would then delete the first
  element equal to `default`. The program only uses class types, and the model treats "no match"
  as "nothing removed".
- GradingSys.ParseInt: the text it accepts is simpler than `int.Parse`. It is an optional `+` or
  `-` followed by ASCII digits. Surrounding white space never reaches it, because the fields are
  trimmed first. Culture-specific signs and digits are not modelled.
- GradingSys.ParseFields: the reader does not catch the `OverflowException` of `int.Parse`. It
  leaves `ReadStudentsFromFile`, and the catch-all handler of `Main` prints "An unexpected error
  occurred: " with its message (GradingSys/Program.cs:123-126). The model returns it as the error
  `NumberOverflow`, which has no line number.
- GradingSys.ReadStudentsFromFile: the line counter, a C# `int`, is unbounded in the model. Files
  of 2^31 lines or more are out of scope.
- `InventoryApp` is left out. It only forwards to the logger, and `SaveClearLoad` stands for its
  sequence in `Main`.
