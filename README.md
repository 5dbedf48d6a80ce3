# Guest-registration ledger of db-manager, in Dafny

db-manager is a small Flask service where hotel staff register visiting
parties and record their arrival. Its business logic is one ordered list of
customer records. Each record holds a name, a phone, a room number, a party
size (`amount`), an `arrived` flag and an optional second phone. The list is
kept in one data file. Three request handlers change it:

- **register** strips the five form fields and refuses the party if a
  required field is blank. It then refuses it if room or amount is not an
  integer, or if the party is larger than six and has no second phone.
  Finally it refuses it if the total headcount would pass 50. Otherwise it
  appends the record, not yet arrived.
- **arrived** sets every record's flag to whether its name is among the
  names ticked on the form.
- **delete_all** empties the list.

Staff accounts are looked up by name with a first-match search.

The model is split into these modules:

- `Wrappers`: `Option`, `Result` and `Outcome`.
- `FormText`: Python's `str.strip()` and `int()` on form text, plus `str()`
  on integers as the inverse of `int()`.
- `Customers`: the record, `total_people`, the registration decision
  `Admit`, the arrival rewrite `WithArrivals`, and the ledger as a state
  machine over requests, with the capacity invariant.
- `Routes`: the class `Ledger`, which owns the list. Its methods `Register`,
  `MarkArrived` (a loop that updates one record at a time) and `DeleteAll`
  are each proved against the functions in `Customers`.
- `Users`: `FindUser`, the early-return search over the users file.
- `Scenarios`: worked examples of the rules.

The code keeps exactly one list in one data file.

The code accepts any integer as a party size, including zero and negative
sizes. A negative party lowers the total. The cap is still checked against the
summed total, so every admitted registration leaves the total at 50 or below
(`AdmitKeepsCapacity`). The model keeps this behaviour as written.

## Model

| member | source | states |
|---|---|---|
| `FormText.TrimStart` | main.py:118-122 | the result is a suffix of the input, every character cut from the front is whitespace, and the result does not start with whitespace |
| `FormText.TrimEnd` | main.py:118-122 | the result is a prefix of the input, every character cut from the back is whitespace, and the result does not end with whitespace |
| `FormText.Strip` | main.py:118-122 | `str.strip()`: the result is a slice of the input with only whitespace (Python's `isspace` set) on either side; it neither starts nor ends with whitespace; it is empty exactly when the input is all whitespace |
| `FormText.SpaceAroundSlice` | main.py:118-122 | cutting a whitespace prefix and then a whitespace suffix leaves a slice of the original with only whitespace around it |
| `FormText.StripKeepsTrimmed` | main.py:118-122 | text that neither starts nor ends with whitespace is returned unchanged |
| `FormText.StripIdempotent` | main.py:118-122 | stripping an already stripped field changes nothing |
| `FormText.BlankOnlyWhenAllSpace` | main.py:124 | a field is blank after stripping exactly when it held only whitespace |
| `FormText.ParseInt` | main.py:128-133 | `int()` succeeds exactly on an optional `+`/`-` followed by one to 4300 digits (Python's default digit limit; longer text raises `ValueError`, which the handler turns into a refusal); a leading `-` gives a value of at most 0, otherwise the value is at least 0 |
| `FormText.LeadingZero` | main.py:128-133 | a leading `0` does not change the number a digit string denotes |
| `FormText.ParseIntPrefixes` | main.py:128-133 | `int("+d")` equals `int(d)`, `int("-d")` is its negation, and `int("0d")` equals `int(d)` while the text stays within the digit limit, so `"007"`, `"+5"` and `"-0"` read as 7, 5 and 0 |
| `FormText.FormatNat` | main.py:128-133 | the inverse of `int()` on natural numbers: the decimal text is non-empty, all digits, has no leading zero, and denotes that number |
| `FormText.FormatInt` | main.py:128-133 | the inverse of `int()`: the decimal text starts with `-` exactly for a negative number, and `int()` reads it back as that number whenever it has at most 4300 digits |
| `Customers.TotalPeople` | main.py:71-72 | the headcount of the empty list is 0, and it is never negative when no party size is negative |
| `Customers.TotalPeopleConcat` | main.py:71-72 | the headcount of two lists laid end to end is the sum of their headcounts |
| `Customers.TotalPeopleAppend` | main.py:71-72 | appending a record raises the headcount by exactly its `amount` |
| `Customers.Admit` | main.py:118-150 | the registration decision; an admitted record is not yet arrived, and the total plus its amount is at most 50 |
| `Customers.AdmitChecksInOrder` | main.py:124-141 | the check order. A blank required field gives MissingField whatever else the form or the list holds. Otherwise a non-integer room or amount gives NotANumber. Otherwise more than 6 people with a blank second phone gives SecondPhoneRequired. Otherwise a total that would pass 50 gives OverCapacity, carrying the current total. Each is stated as an if-and-only-if |
| `Customers.AdmittedRecord` | main.py:143-150 | an admitted record carries the stripped name, phone and second phone, with name and phone non-blank, and the parsed room and amount. It is not arrived, and a party of more than 6 has a second phone |
| `Customers.AdmitKeepsCapacity` | main.py:139-150 | a successful registration raises the total by exactly the party's amount and leaves it at most 50, whatever the sign of the amount and the previous total |
| `Customers.MarkFrom` | main.py:168 | one record after the arrival form: `arrived` is true exactly when its name was selected, and every other field is unchanged |
| `Customers.WithArrivals` | main.py:165-168 | after the arrival form the list has the same length and order, and every field but `arrived` is unchanged; `arrived` is true exactly when the record's name was selected, so records sharing a name share the flag |
| `Customers.WithArrivalsKeepsTotal` | main.py:165-168 | the arrival update never changes the headcount |
| `Customers.WithArrivalsIdempotent` | main.py:165-168 | submitting the same selection twice gives the same list as submitting it once |
| `Customers.Apply` | main.py:113-183 | one request: a registration keeps every earlier record and adds at most one, and a list that grew is at most 50 people; an arrival form keeps the length and the headcount; delete-all empties the list |
| `Customers.ApplyKeepsCapacity` | main.py:139-181 | a register, arrival or delete-all request keeps the total at most 50 when it was at most 50 before |
| `Customers.ReplayKeepsCapacity` | main.py:110-183 | from a list within the cap (the empty list of a missing data file, say), any sequence of requests keeps the total at most 50 |
| `Routes.Ledger.constructor` | main.py:59-61 | with no data file the list is empty |
| `Routes.Ledger.Register` | main.py:118-153 | succeeds exactly when `Admit` does. On failure it reports `Admit`'s error and leaves the list unchanged. On success it appends exactly `Admit`'s record at the end, keeps every earlier record, raises the total by the new amount and leaves it at most 50 |
| `Routes.Ledger.MarkArrived` | main.py:164-170 | the loop over the records leaves exactly `WithArrivals` of the old list, with the same total |
| `Routes.Ledger.DeleteAll` | main.py:178-183 | the list becomes empty, with total 0 |
| `Users.FindUser` | main.py:43-47 | returns the first entry whose username equals the name, or none exactly when no entry matches |
| `Scenarios.FullLedgerRefusesFive` | main.py:139-141 | with 48 people registered, a form with every field filled, integer room and a party of 5 is refused with OverCapacity carrying the current total 48 |
| `Scenarios.TickingAliceOnly` | main.py:167-168 | selecting only Alice marks Alice arrived and Bob not arrived |

## Left out

- Flask routing, redirects, templates and flashed messages (main.py:76-78, 98, 152-155, 171-174, 182-183). A refusal is an error value, not a message. The GET pages, which only render the list and the current total, are not modelled.
- Login, logout, the `login_manager` user loader, rate limiting and password-hash checking (main.py:19-24, 31-33, 50-55, 82-107). The hash check is a library call whose hashing is not visible. Authentication is a gate in front of the handlers and does not change the list.
- JSON file I/O in `load_data`, `save_data` and `load_users` (main.py:36-40, 59-68). The list lives in the `Ledger` object between requests, and the users file is a parameter of `FindUser`. Only "no data file gives the empty list" is modelled, by the constructor. The model assumes records read from the file have every field with the right type. The code would raise on a record with no `amount` and would give `None` for a record with no `name`.
- Environment and secret-key loading, and the server entry point (main.py:10-17, 187-188).
- Concurrency: each request reloads and overwrites the whole file with no locking, so simultaneous requests can lose updates. The model applies requests one at a time.
- FormText.ParseInt: accepts only ASCII digits with an optional sign. Python's `int()` also accepts underscores between digits and non-ASCII decimal digits, where this model returns `None`. The 4300-digit limit is Python's default; a process that raises it with `sys.set_int_max_str_digits` would accept longer text.
- FormText.FormatInt: the round trip is stated only up to 4300 digits, because `int()` refuses longer text; `str()` itself has the same limit in Python, which the model does not impose.
- Routes.Ledger.Register: the code writes `second_phone or ""`. For a string this is the string itself, so the model stores the stripped second phone directly.
