# YouTube trending-video helpers in Dafny

This project models the two helpers of `src/helpers.py` that hold logic, and
proves properties about each.

- **Channel-title lookup** (`get_channel_title_by_id`), module `ChannelTitle`,
  file `channel_title.dfy`. The helper asserts that the table's column names
  form exactly the set `{channelId, channelTitle}`. It then returns the
  `channelTitle` of the first row whose `channelId` equals the key, or `""`
  when no row matches. The Spark DataFrame is modelled as its list of column
  names plus its rows in order, each row a list of cells, one per column.
  Column names may repeat, as they may in Spark, and still pass the set check:
  - a repeated `channelId` makes the reference `map_id_title["channelId"]`
    ambiguous. Spark raises an error there, modelled as
    `AmbiguousReference("channelId")`;
  - a repeated `channelTitle` gives the cell of its last occurrence, because
    `Row.asDict()` keeps the last value under a repeated name.

  `filter(...)` is an in-order filter over the rows, and `first()` takes the
  head of the filtered rows. The failed assertion is the error value
  `AssertionError(ColumnsMessage)`. The lookup requires only what every
  DataFrame guarantees: each row has one cell per column (`IsDataFrame`).
- **Category map builder** (`get_map_category_name_by_id`), module
  `CategoryMap`, file `category_map.dfy`. It starts after `json.load` and
  takes the parsed document as a `Json.Value`. The method
  `GetMapCategoryNameById` keeps the source's shape: a dictionary that starts
  empty, and a `while` loop over `data["items"]` that stores
  `item["id"] -> item["snippet"]["title"]`. Its postcondition ties the result
  to the function `CategoryMapOf`, a left fold over the items. The lemmas
  about `CategoryMapOf` give the properties:
  - key set = the set of item ids;
  - last write wins;
  - at most one entry per item;
  - which error is raised, and that a failed run returns no partial map.

The two error kinds the builder ends with are modelled separately:
- `KeyError("invalid file format")`, which the code raises when a key is missing;
- `TypeError`, which the code does not translate. It arises when a value of
  the wrong kind is subscripted, iterated or used as a key.

The model follows Python's evaluation order. In `m[item["id"]] = item["snippet"]["title"]`
the right-hand side is evaluated first. So `snippet` is looked up first, then
`title`, then `id`. When an item has several faults, this order decides which
error it raises.

The model follows the code, also where a reader might expect a format error:
- A document of the wrong kind is not a format error. Examples are a list
  where a dict is expected, or a non-empty string for `items`. Python raises
  `TypeError` there.
- An `items` member that is an empty dict or an empty string iterates zero
  times, so the result is the empty map.

Supporting files: `wrappers.dfy` (`Option`, `Result`) and `json.dfy` (the
JSON value datatype).

## Model

| member | source | states |
|---|---|---|
| ChannelTitle.GetChannelTitleById | src/helpers.py:15-39 | fails with the assertion's message exactly when the set of column names is not {channelId, channelTitle}; with that set, fails exactly when channelId names several columns, with the ambiguous-reference error; on success the title is "" or the title cell of a row whose channelId cell is the key |
| ChannelTitle.HasExpectedColumns | src/helpers.py:32-35 | the schema test compares sets: it holds exactly when both channelId and channelTitle occur among the columns and no other name does, whatever the order or repetitions |
| ChannelTitle.First | src/helpers.py:36 | `first()`: no row exactly when the filtered rows are empty, otherwise their head |
| ChannelTitle.FirstIndex | src/helpers.py:36 | the position of the column a unique name refers to: the first column of that name |
| ChannelTitle.LastIndex | src/helpers.py:38 | the column `asDict()["channelTitle"]` reads: the last column of that name |
| ChannelTitle.ResolveColumn | src/helpers.py:36 | a reference to a name the table carries succeeds exactly when one column carries it, and then points at it; when several do, it is the ambiguous-reference error |
| ChannelTitle.Filter | src/helpers.py:36 | the filtered rows are at most as many as the table's, all of them come from the table and carry the key, and every matching row is among them |
| ChannelTitle.FilterHeadIsFirstMatch | src/helpers.py:36 | filtering keeps row order, so the head of the filtered rows is the first row whose id equals the key |
| ChannelTitle.TitleOfFirstMatch | src/helpers.py:36-38 | when some row matches, the result is the title cell of the first matching row |
| ChannelTitle.TitleWhenNoMatch | src/helpers.py:37-39 | when no row matches, the result is the empty string |
| ChannelTitle.ColumnOrderIrrelevant | src/helpers.py:32-35 | two tables whose column lists have the same members, in any order, are accepted or refused by the assertion alike |
| ChannelTitle.FilterSwapped | src/helpers.py:36 | filtering rows with their two cells exchanged, on the second cell, gives the filtered rows with their cells exchanged |
| ChannelTitle.SwappedColumnsSameTitle | src/helpers.py:32-38 | listing the columns as (channelTitle, channelId), with every row's cells exchanged to match, gives the same result as (channelId, channelTitle) |
| ChannelTitle.SchemaCheckIgnoresRows | src/helpers.py:32-35 | a failed schema check gives the same assertion failure whatever the rows are |
| ChannelTitle.ExampleTableAccepted | tests/test_helpers.py:22-27 | the test table is accepted, with ids in its first column and titles in its second |
| ChannelTitle.ExampleLookupById | tests/test_helpers.py:38-44 | the test table gives titlech1, titlech2 and titlech3 for idch1, idch2 and idch3 |
| ChannelTitle.ExampleUnknownId | tests/test_helpers.py:47-50 | the test table gives "" for an id it does not hold |
| ChannelTitle.ExampleRenamedColumns | tests/test_helpers.py:53-61 | the test table with columns channel_id and channel_title fails with exactly the assertion's message |
| ChannelTitle.ExampleRepeatedColumns | src/helpers.py:32-38 | columns (channelId, channelTitle, channelId) pass the set check and then give the ambiguous-reference error; columns (channelId, channelTitle, channelTitle) give the last title cell |
| CategoryMap.Subscript | src/helpers.py:57-60 | `v[key]` inside the try block: succeeds exactly on a dict holding the key, with its value; a dict without the key gives the format error, any other kind of value gives TypeError |
| CategoryMap.Iterate | src/helpers.py:57 | `for item in v`: a list yields its elements; an empty dict or empty string runs zero times; a non-empty dict or string, whose first key or character fails at `item["snippet"]`, gives TypeError |
| CategoryMap.Fold | src/helpers.py:56-60 | the loop as a fold over the items: on success it keeps every key it started with; it can only end with the format error or TypeError |
| CategoryMap.CategoryMapOf | src/helpers.py:55-62 | the whole builder after `json.load`: `data["items"]`, its iteration, and the fold from the empty map; it can only end with the format error or TypeError |
| CategoryMap.Entry | src/helpers.py:58-60 | the loop body succeeds exactly on items of the shape {"id": string, "snippet": {"title": ...}} and then yields (id, title); it raises the format error exactly when snippet, title or id is missing, in evaluation order, and TypeError otherwise |
| CategoryMap.GetMapCategoryNameById | src/helpers.py:55-62 | the in-place loop over the items returns or raises exactly what the fold CategoryMapOf does |
| CategoryMap.FoldSucceedsIff | src/helpers.py:56-60 | the loop completes exactly when every item has the expected shape |
| CategoryMap.FoldStopsAtFirstBadItem | src/helpers.py:56-60 | the loop raises the error of the first badly shaped item and returns no partial map |
| CategoryMap.FoldKeys | src/helpers.py:57-58 | the keys after the loop are the starting keys plus the item ids; other keys keep their value; at most one entry is added per item |
| CategoryMap.FoldLastWriteWins | src/helpers.py:57-58 | each id maps to the title of its last occurrence among the items |
| CategoryMap.LastOccurrenceExists | src/helpers.py:57-58 | every id among the items has a last occurrence |
| CategoryMap.CategoryMapOfWellFormed | src/helpers.py:55-62 | for a list of well-shaped items, the result succeeds; its key set is exactly the item ids; each key maps to the title of its last occurrence; it holds no more entries than there are items |
| CategoryMap.CategoryMapOfSucceedsIff | src/helpers.py:55-62 | the builder succeeds exactly on a dict whose items is a list of well-shaped items, an empty dict or an empty string |
| CategoryMap.TopLevelErrors | src/helpers.py:56-60 | a non-dict document raises TypeError; a dict without items raises the format error |
| CategoryMap.MissingKeyIsFormatError | src/helpers.py:56-60 | a missing snippet, title or id in the first bad item raises KeyError("invalid file format") |
| CategoryMap.EmptyItemsGiveEmptyMap | src/helpers.py:55-58 | an items value that is an empty list, an empty dict or an empty string gives the empty map |
| CategoryMap.ExampleCategoryFile | tests/test_helpers.py:64-102 | the test's category file gives {"1": Film & Animation, "2": Autos & Vehicles, "10": Music}, and the file with items renamed raises the format error |

## Left out

- `get_channel_info_by_id` (src/helpers.py:65-69) is left out. It is a single HTTP GET to the YouTube Data API with a 5-second timeout, and it computes nothing of its own.
- Opening the file and `json.load` (src/helpers.py:52-53) are left out. The builder takes the already-parsed document.
- JSON numbers, booleans and `null` are not part of `Json.Value`. The model has strings, arrays and objects. So ids and titles of those kinds are not modelled. Python would store them as they are.
- The Spark engine is left out: session, lazy evaluation, partitioning. The model assumes `filter(...).first()` sees the rows in table order. Spark does not promise that order across partitions.
- Null cells in the table are not modelled. Every cell is a string.
- A column reference that names no column is not reached. The set check before it ensures that `channelId` is present.
- The result of the category map builder is a Dafny `map`. It has no order, so the insertion order of the returned Python dict is not modelled. Nothing in the core depends on that order.
- `title_tokenize` is imported by the tests, but `src/helpers.py` does not define it. Its implementation is not part of this model.
- Python's assertion can be stripped by `python -O`. That mode is not modelled: the schema check always runs.
