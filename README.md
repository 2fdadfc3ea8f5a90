# Point-of-interest import, modelled in Dafny

This project models the core of a Django application that stores points of interest (PoIs).

- The `import_poi` management command reads CSV, JSON and XML files.
- It turns each record into the `defaults` of one `update_or_create`, keyed by the record's external id.
- It imports each file inside one transaction, and reports a count or an error per file.
- The `PointOfInterest` model's `save()` recomputes `average_rating` from the free-form `ratings_data` string. That string is a JSON list or a comma-separated list, and `calculate_average_rating` reads it.

The repository holds two copies of `models.py`: `searchsmartly-poi-project/poi/models.py` and `poi/models.py`. Their `save` and `calculate_average_rating` behave the same. One returns `None` from inside the `except` clause and the other falls through to `return None`. The model has one definition for both, and the table below cites both copies.

Modules:

| file | module | models |
|---|---|---|
| `outcomes.dfy` | `Outcomes` | `Option`, the Python exceptions the core raises or catches, and `Outcome` (a value or a raised exception) |
| `sequences.dfy` | `Sequences` | what it means for one sequence to be another with some elements left out, in order |
| `text.dfy` | `Text` | `str.strip`, `str.split(',')`, `", ".join`, `str.lower`, `os.path.basename`, `Path.suffix` |
| `numbers.dfy` | `Numbers` | `float()` of a string, and JSON number tokens |
| `ratings.dfy` | `Ratings` | `calculate_average_rating` |
| `json_values.dfy` | `JsonValues` | the values `json.load` returns, `dict.get`, truthiness, `str()`, `float()`, `json.dumps` |
| `xml_elements.dfy` | `XmlElements` | parsed XML elements, `find`, `findall`, `get_xml_text` |
| `store.dfy` | `Store` | the `PointOfInterest` row, the instance (`class PointOfInterest`) with `save`, and the table (`class PoiTable`) with `update_or_create` and `delete` |
| `import_poi.dfy` | `ImportPoi` | the three importers, `import_file` and `handle` |
| `round_trip.dfy` | `RoundTrip` | records written out as a CSV row, an XML record and a JSON item, and read back by the importers |

How the model is built:

- Each importer's loop body is a pure function from one decoded record to a `RowAction`. The action is `Skip` (the loop's `continue`), `Write(defaults)`, or `Abort(exception)`, which is an exception the loop's `except` clause does not catch.
- A file's import is specified by `RunActions`, a fold of those actions over the table. The method `RunRows` carries it out on a `PoiTable`. It has a loop, a savepoint for `transaction.atomic`, and a rollback when an exception escapes.
- `Handle` is a method whose result is tied to the function `RunBatch`. The properties of the command are lemmas about `RunActions` and `RunBatch`.
- The decoders `csv.DictReader`, `json.load` and `ET.parse` are not modelled. Their results are the inputs of the model: `FileView` holds what each one yields for a file, and a map from path to `FileView` stands for the file system.

Some behaviours of the code are easy to miss. The model keeps them as the code has them:

- **Rating errors.** `sum()` raises TypeError when a bracketed ratings list holds something other than a number, such as `[null]` or `["4"]`. Neither `calculate_average_rating` nor any importer catches that TypeError. So `save()` raises, the whole file is rolled back, and `handle` reports it as failed. A ratings string that does not parse at all gives no rating instead. See `Ratings.RaisesOnlyOnNonNumbers` and `ImportPoi.RunRows`.
- **When the average is computed.** The average is recomputed only when `ratings_data` is non-empty. An update with empty ratings keeps the stored average.
- **Descriptions.** CSV and XML rows pass no description, so an update keeps the stored one (`ImportPoi.UpdateKeepsDescription`). JSON items always pass one: an item without a description erases the stored text and stores `""` (`ImportPoi.JsonWritesDescription`).
- **Blank XML coordinates.** An XML coordinate whose text is only whitespace reads as `''`, not as the default `'0'`, so `float()` fails and the record is skipped (`ImportPoi.XmlBlankCoordinateSkips`).
- **Range checks.** No latitude or longitude range check runs. `save()` does not call the field validators, so out-of-range coordinates are stored.

## Model

| member | source | states |
|---|---|---|
| Text.Trim | searchsmartly-poi-project/poi/models.py:56 | stripping gives `""` exactly when every character is whitespace; otherwise the result starts and ends with non-whitespace; a string with no whitespace at its ends is unchanged |
| Text.TrimMiddle | searchsmartly-poi-project/poi/models.py:56 | the stripped string is the part of the string that stands after all its leading and before all its trailing whitespace, at the index where the leading whitespace ends |
| Text.StripTwice | searchsmartly-poi-project/poi/models.py:56 | stripping an already stripped string changes nothing |
| Text.LStrip | searchsmartly-poi-project/poi/models.py:56 | the leading whitespace is cut off: what is kept is a suffix of the string, every removed character is whitespace, and the kept part starts with non-whitespace |
| Text.RStrip | searchsmartly-poi-project/poi/models.py:56 | the trailing whitespace is cut off: what is kept is a prefix of the string, every removed character is whitespace, and the kept part ends with non-whitespace |
| Text.Split | searchsmartly-poi-project/poi/models.py:61 | `s.split(',')` is never empty, no piece holds a comma, and joining the pieces with `','` gives `s` back |
| Text.SplitWithoutSeparator | searchsmartly-poi-project/poi/models.py:61 | a string without a comma splits into itself alone |
| Text.SplitAtSeparator | searchsmartly-poi-project/poi/models.py:61 | splitting `p + "," + x`, where `p` holds no comma, gives `p` followed by the pieces of `x` |
| Text.JoinEnds | poi/models.py:94-95 | joining non-empty parts starts with the first part's first character and ends with the last part's last character, whatever the separator |
| Text.TrimEach | poi/models.py:98-102 | stripping every token keeps the number of tokens and strips each one |
| Text.NonEmpty | poi/models.py:101 | the `if r.strip()` filter keeps the tokens in their order (a subsequence), keeps every non-empty token as many times as it occurs and drops every empty one, and keeps all tokens when none is empty |
| Text.TrimSplitJoin | poi/models.py:98-102 | tokens free of commas and edge whitespace come back unchanged from joining with `", "`, splitting on `,` and stripping |
| Text.Lower | searchsmartly-poi-project/poi/management/commands/import_poi.py:57 | `lower()` keeps the length and lowers each letter |
| Text.Basename | searchsmartly-poi-project/poi/management/commands/import_poi.py:58 | the base name is the part of the path after its last `/` and holds no `/` |
| Text.SuffixShape | searchsmartly-poi-project/poi/management/commands/import_poi.py:57 | the suffix is empty, or a `.` and at least one more character from the end of the last path component, with no further `.` |
| Text.SuffixRule | searchsmartly-poi-project/poi/management/commands/import_poi.py:57 | `Path.suffix` is the last path component from its last `.` on, and empty when that component has no `.`, starts with its only `.`, or ends with its last `.` |
| Text.AfterLast | searchsmartly-poi-project/poi/management/commands/import_poi.py:57-58 | the position just after the last occurrence of a character: no occurrence follows it, and the character stands just before it when it is not 0 |
| Numbers.UnsignedValue | searchsmartly-poi-project/poi/models.py:61 | an unsigned literal that `float()` accepts is non-empty, holds only digits and `.`, and has a non-negative value |
| Numbers.ParseFloatStrips | searchsmartly-poi-project/poi/models.py:61 | `float()` ignores the whitespace around the number: stripping it first gives the same result |
| Numbers.JsonNumberShape | searchsmartly-poi-project/poi/models.py:59 | a JSON number token is non-empty, starts with `-` or a digit, ends with a digit, and holds only digits, `-` and `.` |
| Numbers.ParseJsonNumber | searchsmartly-poi-project/poi/models.py:59 | `json.loads` reads a number exactly from the tokens of the JSON number grammar: every such token has a value, and nothing else does |
| Numbers.JsonNumberHasValue | searchsmartly-poi-project/poi/models.py:59 | every token of the JSON number grammar is a decimal literal with a value |
| Numbers.JsonNumberIsFloat | poi/models.py:95-102 | every JSON number token is also accepted by `float()`, with the same value |
| Ratings.Round2 | searchsmartly-poi-project/poi/models.py:64 | `round(x, 2)` is a whole number of hundredths within 0.005 of `x` |
| Ratings.MeanWithin | searchsmartly-poi-project/poi/models.py:63-64 | the mean of the ratings lies between any lower and upper bound of them |
| Ratings.SumWithin | searchsmartly-poi-project/poi/models.py:63 | the sum of the ratings lies between their count times any lower bound and their count times any upper bound |
| Ratings.ParseFloats | poi/models.py:98-102 | the list comprehension succeeds exactly when every token parses, and then holds each token's value in order |
| Ratings.JsonScalars | poi/models.py:95 | a JSON list is read exactly when every element is well formed, and then holds each element in order |
| Ratings.Average | poi/models.py:104-110 | a missing or empty list gives no rating; a non-empty list of numbers gives exactly their mean rounded to two decimals; a non-empty list holding a non-number makes `sum()` raise TypeError |
| Ratings.CalculateAverageRating | searchsmartly-poi-project/poi/models.py:51-68 | empty `ratings_data` gives `None`; the only exception that can escape is TypeError |
| Ratings.CommaForm | poi/models.py:96-108 | the comma form never raises: any token that is not a number gives no rating (tokens are not dropped one by one), no token gives no rating, and otherwise the result is the rounded mean |
| Ratings.JsonList | poi/models.py:94-95 | `json.loads` of a bracketed string: only whitespace between the brackets gives the empty list; otherwise the result is a decode error exactly when some comma-separated piece is not a JSON scalar, and else the list of those scalars in order |
| Ratings.BracketForm | searchsmartly-poi-project/poi/models.py:58-66 | the bracketed form averages the decoded list: a decode error or an empty list gives no rating, and a non-empty list of numbers gives their mean rounded to two decimals |
| Ratings.CommaPath | poi/models.py:96-108 | a stripped string that is not bracketed is averaged from its comma tokens |
| Ratings.RatingOfList | searchsmartly-poi-project/poi/models.py:51-68 | a non-empty string whose stripped form reads as a non-empty list of numbers gives the mean of those numbers rounded to two decimals |
| Ratings.RaisesOnlyOnNonNumbers | searchsmartly-poi-project/poi/models.py:55-66 | the computation raises exactly when the stripped string is bracketed, reads as a JSON list, and that list holds a non-number |
| Ratings.AverageWithinRatings | searchsmartly-poi-project/poi/models.py:63-64 | a returned rating lies within 0.005 of the range of the numbers it averages |
| Ratings.LiteralItems | poi/models.py:95 | number literals give a list of numbers of the same length |
| Ratings.JsonFormOfLiterals | poi/models.py:94-95 | `"[" + ", ".join(lits) + "]"` survives `strip()`, takes the JSON branch, and reads as the literals' values |
| Ratings.CommaFormOfLiterals | poi/models.py:96-102 | `", ".join(lits)` survives `strip()`, takes the comma branch, and reads as the literals' values |
| Ratings.BracketAndCommaAgree | searchsmartly-poi-project/poi/models.py:58-64 | the bracketed and the comma form of the same numbers give the same rating: their mean rounded to two decimals |
| Ratings.ThreeFourFive | searchsmartly-poi-project/poi/models.py:56-64 | the ratings `[3,4,5]` give the average 4.00 |
| JsonValues.Lookup | searchsmartly-poi-project/poi/management/commands/import_poi.py:119-129 | a key that is absent gives `None`; otherwise the value is the one paired with the last occurrence of the key |
| JsonValues.Get | searchsmartly-poi-project/poi/management/commands/import_poi.py:119 | `.get` raises AttributeError exactly when the value is not an object; on an object it gives the value of the key when present and the default otherwise |
| JsonValues.ToFloat | searchsmartly-poi-project/poi/management/commands/import_poi.py:125-126 | `float()` gives TypeError for null, lists and objects, 1 or 0 for booleans, the value of a JSON number token, the parsed value of a numeric string, and ValueError for any other string |
| JsonValues.DumpsNumbers | searchsmartly-poi-project/poi/management/commands/import_poi.py:128 | `json.dumps` of a list of numbers is their literals joined by `", "` between brackets |
| XmlElements.FirstIndex | searchsmartly-poi-project/poi/management/commands/import_poi.py:195 | the index of the first child with the tag: no child before it has the tag |
| XmlElements.Find | searchsmartly-poi-project/poi/management/commands/import_poi.py:195 | `find` gives `None` exactly when no child has the tag, and otherwise the first child that has it |
| XmlElements.FindAll | searchsmartly-poi-project/poi/management/commands/import_poi.py:160 | `findall` keeps the children in document order (a subsequence), keeps every child with the tag as many times as it occurs, and no child without it |
| XmlElements.GetXmlText | searchsmartly-poi-project/poi/management/commands/import_poi.py:194-198 | the stripped text of the first matching child when that text is present and non-empty, and the default otherwise |
| XmlElements.RecordElements | searchsmartly-poi-project/poi/management/commands/import_poi.py:159-164 | when any child of the root is a `DATA_RECORD`, exactly the `findall('DATA_RECORD')` children; when none is, exactly the `findall('record')` children |
| Store.Blank | searchsmartly-poi-project/poi/models.py:26-34 | a new instance has no average rating and no description |
| Store.SaveSpec | searchsmartly-poi-project/poi/models.py:46-49 | `save()` raises exactly when the average computation raises (a TypeError); otherwise only the average changes, non-empty ratings set it to what `calculate_average_rating` returns, and empty ratings change nothing |
| Store.UpdateOrCreateSpec | searchsmartly-poi-project/poi/management/commands/import_poi.py:91-94 | the upsert raises TypeError exactly when the ratings make `save()` raise; otherwise it creates a row exactly when the key was absent, the table gains only that key, and every other row is unchanged |
| Store.UpsertWrites | searchsmartly-poi-project/poi/management/commands/import_poi.py:91-94 | the upserted row holds every field of the defaults; it keeps the old description when none is passed; its average comes from non-empty ratings and is kept otherwise |
| Store.UpsertIdempotent | searchsmartly-poi-project/poi/management/commands/import_poi.py:91-97 | upserting the same defaults again creates nothing and changes nothing |
| Store.Patch | poi/models.py:72-79 | the stored row equals the assigned instance except for the average, which is recomputed from non-empty ratings and kept otherwise |
| Store.PatchTwice | poi/models.py:72-79 | assigning and saving the same defaults twice gives the row that doing it once gives |
| Store.PatchCongruence | poi/models.py:72-79 | two rows that agree after the defaults `a` are written still agree after `b` and then `a` are written |
| Store.Upsert | searchsmartly-poi-project/poi/management/commands/import_poi.py:91-94 | as a table update, the upsert agrees with `UpdateOrCreateSpec` whenever the ratings do not raise |
| Store.UpsertTwice | searchsmartly-poi-project/poi/management/commands/import_poi.py:91-94 | writing the same defaults twice gives the same table as writing them once |
| Store.UpsertCongruence | searchsmartly-poi-project/poi/management/commands/import_poi.py:91-94 | tables that agree after a write of `a` still agree after a write of `b` followed by `a` |
| Store.PointOfInterest.FromRecord | searchsmartly-poi-project/poi/models.py:6-37 | the instance holds the given row's fields |
| Store.PointOfInterest.Apply | searchsmartly-poi-project/poi/management/commands/import_poi.py:91-94 | every default is assigned to the instance (the description only when one is passed) |
| Store.PointOfInterest.Save | poi/models.py:72-79 | non-empty ratings recompute the average, then the row is stored under its external id; a raise leaves the instance and the table unchanged |
| Store.PoiTable.DeleteAll | searchsmartly-poi-project/poi/management/commands/import_poi.py:28-31 | `--clear` leaves the table empty |
| Store.PoiTable.UpdateOrCreate | searchsmartly-poi-project/poi/management/commands/import_poi.py:91-97 | the table and the `created` flag are those of `UpdateOrCreateSpec`; a raise leaves the table unchanged |
| ImportPoi.Catch | searchsmartly-poi-project/poi/management/commands/import_poi.py:99-100 | a caught exception skips the record; any other exception escapes the loop unchanged |
| ImportPoi.Guarded | searchsmartly-poi-project/poi/management/commands/import_poi.py:88-89 | a record is written exactly when its external id and name are both non-empty, and it is never an error |
| ImportPoi.CsvText | searchsmartly-poi-project/poi/management/commands/import_poi.py:79-84 | a missing column gives `""`, a missing cell gives `"None"`, and a present cell gives its stripped text |
| ImportPoi.CsvFloat | searchsmartly-poi-project/poi/management/commands/import_poi.py:81-82 | a missing column reads as 0, a missing cell raises TypeError, and a cell that is not a number raises ValueError |
| ImportPoi.CsvAction | searchsmartly-poi-project/poi/management/commands/import_poi.py:76-100 | a row whose latitude cell is missing raises TypeError out of the loop, and so does a missing longitude cell once the latitude parsed; a coordinate that is not a number skips the row; two parsed coordinates write exactly the stripped id, name, category and ratings with those coordinates, no description and the file's name, unless the id or the name is empty, which skips the row |
| ImportPoi.CsvActions | searchsmartly-poi-project/poi/management/commands/import_poi.py:76 | one action per row, in order |
| ImportPoi.JsonItems | searchsmartly-poi-project/poi/management/commands/import_poi.py:114-117 | an object is wrapped in a list, a list is iterated, a string is iterated by character, and anything else raises TypeError |
| ImportPoi.JsonFloat | searchsmartly-poi-project/poi/management/commands/import_poi.py:125-126 | coordinates that are not an object raise AttributeError; otherwise the coordinate is `float()` of the value, 0 when the key is absent |
| ImportPoi.RatingsText | searchsmartly-poi-project/poi/management/commands/import_poi.py:128 | falsy ratings give `""`, and truthy ratings give their `json.dumps` text |
| ImportPoi.JsonAction | searchsmartly-poi-project/poi/management/commands/import_poi.py:117-145 | an item that is not an object raises AttributeError out of the loop; for an object, a caught error of a coordinate skips the item and an uncaught one escapes; two converted coordinates write exactly the `str()` of the id, name, category and description, stripped, with the `json.dumps` text of the ratings and the file's name, unless the id or the name is empty, which skips the item |
| ImportPoi.JsonActions | searchsmartly-poi-project/poi/management/commands/import_poi.py:117 | one action per item, in order |
| ImportPoi.XmlAction | searchsmartly-poi-project/poi/management/commands/import_poi.py:166-190 | no error escapes; a coordinate that does not parse skips the record; two parsed coordinates write exactly the stripped texts of `pid`, `pname`, `pcategory` and `pratings` with those coordinates, no description and the file's name, unless the id or the name is empty, which skips the record |
| ImportPoi.XmlActions | searchsmartly-poi-project/poi/management/commands/import_poi.py:166 | one action per record element, in order |
| ImportPoi.WrittenKeys | searchsmartly-poi-project/poi/management/commands/import_poi.py:91-94 | exactly the external ids of the writes |
| ImportPoi.RunActions | searchsmartly-poi-project/poi/management/commands/import_poi.py:76-102 | a file's loop runs to the end exactly when no record escapes an exception and no save raises |
| ImportPoi.RunActionsSummary | searchsmartly-poi-project/poi/management/commands/import_poi.py:91-97 | after a file's loop, the table holds the old keys plus the written ones, the count is the number of written keys that were new, and rows the file does not name are untouched |
| ImportPoi.StepSummary | searchsmartly-poi-project/poi/management/commands/import_poi.py:85-97 | one record's step adds its key to the written keys, counts it when it was new, and leaves the other rows alone |
| ImportPoi.RunStep | searchsmartly-poi-project/poi/management/commands/import_poi.py:76-102 | running one more record extends the loop by that record's step, and a raise there is the raise of the whole file |
| ImportPoi.RaisedPrefix | searchsmartly-poi-project/poi/management/commands/import_poi.py:69-70 | once a record raises, the file's import raises that exception whatever follows |
| ImportPoi.RunRows | searchsmartly-poi-project/poi/management/commands/import_poi.py:69-102 | the loop inside `transaction.atomic`: it returns the count and table of `RunActions`, or restores the table as it was and raises the same exception |
| ImportPoi.JsonPlan | searchsmartly-poi-project/poi/management/commands/import_poi.py:108-117 | malformed JSON raises `CommandError("Invalid JSON file: …")`; a parsed document goes through exactly the actions of its items (a dict as the one item of a list), and a null, boolean or number document raises TypeError; every record written is stamped with the file's name and carries a description |
| ImportPoi.XmlPlan | searchsmartly-poi-project/poi/management/commands/import_poi.py:153-166 | malformed XML raises `CommandError("Invalid XML file: …")`; a parsed tree goes through exactly the actions of its `DATA_RECORD` elements (or of the root's children when there are none); XML records never raise and are stamped with the file's name |
| ImportPoi.Plan | searchsmartly-poi-project/poi/management/commands/import_poi.py:53-67 | a missing file raises `CommandError("File does not exist: …")`; the lower-cased suffix `.csv` plans the CSV rows' actions, `.json` the JSON plan and `.xml` the XML plan, each stamped with the base name; any other suffix raises `CommandError("Unsupported file type: …")` |
| ImportPoi.PlanWritesFrom | searchsmartly-poi-project/poi/management/commands/import_poi.py:53-67 | every record a file's plan writes has a non-empty id and name and is stamped with the file's base name |
| ImportPoi.ImportCsv | searchsmartly-poi-project/poi/management/commands/import_poi.py:69-102 | the CSV import is the transacted run of its rows' actions |
| ImportPoi.ImportJson | searchsmartly-poi-project/poi/management/commands/import_poi.py:104-147 | the JSON import is the transacted run of its plan; a decode error leaves the table unchanged |
| ImportPoi.ImportXml | searchsmartly-poi-project/poi/management/commands/import_poi.py:149-192 | the XML import is the transacted run of its plan; a parse error leaves the table unchanged |
| ImportPoi.ImportFile | searchsmartly-poi-project/poi/management/commands/import_poi.py:53-67 | `import_file` is the transacted run of the file's plan |
| ImportPoi.Handle | searchsmartly-poi-project/poi/management/commands/import_poi.py:27-51 | the table after an optional clear and the per-file reports are those of `RunBatch`, and the total is the sum of the reported counts |
| ImportPoi.BatchStep | searchsmartly-poi-project/poi/management/commands/import_poi.py:35-47 | each file's transacted run extends the batch by that file's table and report |
| ImportPoi.LastReport | searchsmartly-poi-project/poi/management/commands/import_poi.py:35-47 | the report of the last file is appended after the reports of the files before it, names that file, and is a failure exactly when that file fails |
| ImportPoi.RunFails | searchsmartly-poi-project/poi/management/commands/import_poi.py:36-47 | a file's import raises exactly when the file fails on its own |
| ImportPoi.TotalStep | searchsmartly-poi-project/poi/management/commands/import_poi.py:38-50 | the total grows by a succeeded file's count and not at all for a failed file |
| ImportPoi.ReportOf | searchsmartly-poi-project/poi/management/commands/import_poi.py:36-47 | a file's report names its path, and is a failure exactly when its import raised |
| ImportPoi.ReimportChangesNothing | searchsmartly-poi-project/poi/management/commands/import_poi.py:91-97 | importing the same records again on the table the first import left creates no row and changes no row |
| ImportPoi.RunIsReplay | searchsmartly-poi-project/poi/management/commands/import_poi.py:76-97 | a file's import that returns raises on no record and leaves the table its writes produce in order |
| ImportPoi.ReplayIdempotent | searchsmartly-poi-project/poi/management/commands/import_poi.py:91-94 | writing a file's records twice leaves what writing them once does |
| ImportPoi.Absorb | searchsmartly-poi-project/poi/management/commands/import_poi.py:91-94 | a write that is repeated after other records can be left out the first time |
| ImportPoi.RunKeepsConsistent | searchsmartly-poi-project/poi/management/commands/import_poi.py:85-94 | a file's import keeps every row under its own non-empty id with a non-empty name, and every row it writes records the file it came from |
| ImportPoi.StepKeepsConsistent | searchsmartly-poi-project/poi/management/commands/import_poi.py:85-94 | a write of a record with a non-empty id and name keeps the table consistent and stamps the row with the file it came from |
| ImportPoi.BatchKeepsConsistent | searchsmartly-poi-project/poi/management/commands/import_poi.py:35-47 | whatever the files hold, the command keeps every row under its own non-empty id with a non-empty name |
| ImportPoi.BatchLog | searchsmartly-poi-project/poi/management/commands/import_poi.py:35-47 | every file is reported once, in order; a file is reported as failed exactly when it fails on its own, whatever the files before it did |
| ImportPoi.BatchTotal | searchsmartly-poi-project/poi/management/commands/import_poi.py:33-50 | no row is ever removed, and the printed total is the number of rows the batch created |
| ImportPoi.XmlCoordinateDefault | searchsmartly-poi-project/poi/management/commands/import_poi.py:171-172 | an XML coordinate that is missing, or whose text is missing or empty, reads as 0 |
| ImportPoi.ZeroParses | searchsmartly-poi-project/poi/management/commands/import_poi.py:171-172 | the default `'0'` reads as 0 |
| ImportPoi.EmptyDoesNotParse | searchsmartly-poi-project/poi/management/commands/import_poi.py:194-198 | `float('')` raises ValueError |
| ImportPoi.XmlBlankCoordinateSkips | searchsmartly-poi-project/poi/management/commands/import_poi.py:194-198 | an XML latitude whose text is only whitespace makes the record skipped |
| ImportPoi.UpdateKeepsDescription | searchsmartly-poi-project/poi/management/commands/import_poi.py:78-86 | a CSV or XML row that updates a stored row leaves its description as it was |
| ImportPoi.JsonWritesDescription | searchsmartly-poi-project/poi/management/commands/import_poi.py:129 | a written JSON item always passes a description, and passes `""` when the item has none |
| ImportPoi.JsonNumericRatings | searchsmartly-poi-project/poi/management/commands/import_poi.py:120-128 | a non-empty list of numbers as `ratings` is stored as the `json.dumps` text, and the row gets their mean rounded to two decimals |
| ImportPoi.JsonActionRatings | searchsmartly-poi-project/poi/management/commands/import_poi.py:120-128 | a written JSON item stores the `json.dumps` text of its `ratings` value, or `""` when the key is absent |
| ImportPoi.RatingsTextOfNumbers | searchsmartly-poi-project/poi/management/commands/import_poi.py:128 | a non-empty list of numbers is stored as its literals joined by `", "` between brackets |
| ImportPoi.StoredAverage | searchsmartly-poi-project/poi/models.py:46-49 | a row written with the `json.dumps` text of a non-empty list of numbers gets their mean rounded to two decimals |
| RoundTrip.CsvRoundTrip | searchsmartly-poi-project/poi/management/commands/import_poi.py:76-94 | a record with non-empty id and name and no whitespace at the ends of its fields, written as a CSV row under `import_csv`'s column names, is read back as exactly that record |
| RoundTrip.XmlRoundTrip | searchsmartly-poi-project/poi/management/commands/import_poi.py:166-190 | such a record written as a `DATA_RECORD` element with `pid`, `pname`, `platitude`, `plongitude`, `pcategory` and `pratings` children is read back as exactly that record |
| RoundTrip.JsonRoundTrip | searchsmartly-poi-project/poi/management/commands/import_poi.py:117-145 | such a record with a description, written as a JSON object with its coordinates as number tokens, is read back as exactly that record, its ratings as their `json.dumps` text |
| RoundTrip.JsonMember | searchsmartly-poi-project/poi/management/commands/import_poi.py:119-129 | a key that no later member repeats is looked up as its own value |
| RoundTrip.JsonMemberText | searchsmartly-poi-project/poi/management/commands/import_poi.py:122-129 | a string member that `strip()` leaves alone is read back by `str(item.get(key, '')).strip()` as itself |
| RoundTrip.XmlField | searchsmartly-poi-project/poi/management/commands/import_poi.py:194-198 | the first child with a tag whose text is already stripped is read back as that text |

## Left out

- The CSV, JSON and XML decoders (`csv.DictReader`, `json.load`, `ET.parse`), file opening and text decoding are not modelled. Their results are inputs of the model, and a file that cannot be opened or decoded is not modelled.
- The console output of `handle` is not modelled. Each file's line is kept as a `Report` value, and the total as a number.
- The command-line parser's demand for at least one file is not modelled. The model accepts an empty list of files.
- `created_at` and `updated_at` are not modelled. The clock is outside the model.
- Django's field validators, the `DecimalField` digit limits and the `CharField` lengths are not modelled. `save()` does not run the validators, and the database's limits are outside the model.
- Numbers.ParseFloat: accepts only plain decimals. Exponents, `inf`, `nan` and `_` separators, which `float()` also accepts, are left out.
- Ratings.CalculateAverageRating: the arithmetic is exact real arithmetic. Binary floating-point rounding of `sum`, `/` and `round` is not modelled.
- Ratings.JsonList: a bracketed ratings string is split on every comma, including commas inside strings. So `["a,b"]` reads as a decode error and gives no rating, where Python reads the one-string list and raises TypeError from `sum()`.
- Ratings.JsonList: a nested list or object, a string with escapes, and the number forms with exponents, `NaN` or `Infinity` read as a decode error and give no rating. Python reads them and then raises TypeError from `sum()` or averages the number.
- JsonValues.Dumps: numbers keep the literal they were read from, so `1.50` stays `1.50` and `-0` stays `-0`, where Python writes `1.5` and `0`. Strings are written without escaping, where Python escapes non-ASCII and control characters.
- JsonValues.PyStr: `str()` of a number keeps its literal, where Python writes the float's shortest form (`1.50` becomes `1.5`). So a numeric JSON id such as `1.50` is stored under a different key than Python would use. `repr` escapes inside strings are not modelled.
- Text.Trim: its own contract states the end characters of the result. That the result is the middle of the input, with only whitespace cut off on either side, is stated by the lemma `Text.TrimMiddle`, which every caller can invoke. It is kept out of `Trim`'s contract so that proofs about concrete strings stay small.
- Text.Lower: lowers ASCII letters only.
- Text.Suffix: the path's last component is taken after the last `/`. A trailing `/`, which `pathlib` drops, is not normalised away.
- Store.UpdateOrCreateSpec: the table holds one row per external id. The `MultipleObjectsReturned` error for duplicate ids therefore cannot arise.
- Store.UpdateOrCreateSpec: follows Django before 4.2, where an update's `save()` stores the whole instance. Django 4.2 and later pass `update_fields` (the keys of the defaults) to that `save()`, so the recomputed `average_rating` is not stored on an update. A created row is stored whole in both.
- ImportPoi.StoredAverage: the stored average of an updated row holds for Django before 4.2 only, as for `UpdateOrCreateSpec`. A created row gets it in every version.
- JsonValues.ToFloat: a JSON number with an exponent (`1e-05`) is not a number token here. `float()` of its literal raises ValueError, so the item is skipped, where Python converts the float that `json.load` produced.
- JsonValues.ToFloat: a JSON integer beyond the float range converts to its exact value. Python raises OverflowError there, which no importer catches, so the file is rolled back and reported as failed.
- JsonValues.Truthy: a zero written with an exponent (`0e0`) counts as true, where Python's `0.0` is false.
- Store.UpsertWrites: the stored average on an update holds for Django before 4.2 only, as for `UpdateOrCreateSpec`.
- Store.Patch: the recomputed average is stored on an update only before Django 4.2, as for `UpdateOrCreateSpec`.
- ImportPoi.JsonNumericRatings: the stored average of an updated row holds for Django before 4.2 only, as for `UpdateOrCreateSpec`. The section above on when the average is computed assumes the same.
- The database's own failures (connection and integrity errors) and concurrent writers are not modelled.
