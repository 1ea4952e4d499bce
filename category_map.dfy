/** The category map builder of `get_map_category_name_by_id` (src/helpers.py),
    from the already-parsed JSON document on: walk `data["items"]` and store
    `item["id"] -> item["snippet"]["title"]` in a dictionary that starts empty,
    turning every missing key into `KeyError("invalid file format")`. */
module CategoryMap {
  import opened Wrappers
  import opened Json

  /** The exceptions the builder can end with: the format error it raises for
      a missing key, and the TypeError Python raises, untranslated, when a
      value of the wrong kind is subscripted, iterated or used as a key. */
  datatype CategoryError = KeyError(message: string) | TypeError

  const FormatMessage: string := "invalid file format"

  /** `v[key]` inside the try block: a missing member is the format error;
      subscripting a string or a list with a string is a TypeError. */
  function Subscript(v: Value, key: string): (r: Result<Value, CategoryError>)
    ensures r.Success? <==> v.JObject? && key in v.fields
    ensures r.Success? ==> r.value == v.fields[key]
    ensures r.Failure? ==> (r.error == KeyError(FormatMessage) <==> v.JObject?)
    ensures r.Failure? ==> (r.error == TypeError <==> !v.JObject?)
  {
    match v
    case JObject(fields) =>
      if key in fields then Success(fields[key]) else Failure(KeyError(FormatMessage))
    case _ => Failure(TypeError)
  }

  /** The values `for item in v` visits. A list yields its elements. A dict
      yields its keys and a string its characters, all of them strings, so the
      first iteration fails at `item["snippet"]`; only an empty one runs zero
      times. */
  function Iterate(v: Value): (r: Result<seq<Value>, CategoryError>)
    ensures r.Success? <==> v.JArray? || v == JObject(map[]) || v == JString("")
    ensures r.Success? && v.JArray? ==> r.value == v.elems
    ensures r.Success? && !v.JArray? ==> r.value == []
    ensures r.Failure? ==> r.error == TypeError
  {
    match v
    case JArray(elems) => Success(elems)
    case JObject(fields) => if |fields| == 0 then Success([]) else Failure(TypeError)
    case JString(s) => if s == "" then Success([]) else Failure(TypeError)
  }

  /** An item of the expected shape `{"id": <string>, "snippet": {"title": ...}}`. */
  ghost predicate IsCategoryItem(item: Value) {
    && item.JObject?
    && "id" in item.fields && item.fields["id"].JString?
    && "snippet" in item.fields && item.fields["snippet"].JObject?
    && "title" in item.fields["snippet"].fields
  }

  /** The category id of a well-shaped item. */
  ghost function Id(item: Value): string
    requires IsCategoryItem(item)
  {
    item.fields["id"].str
  }

  /** The category title of a well-shaped item. */
  ghost function Title(item: Value): Value
    requires IsCategoryItem(item)
  {
    item.fields["snippet"].fields["title"]
  }

  /** The item is a dict and one of the keys the loop body reads, in the
      order it reads them (snippet, title, id), is missing. */
  ghost predicate MissingKey(item: Value) {
    && item.JObject?
    && ("snippet" !in item.fields
        || (item.fields["snippet"].JObject?
            && ("title" !in item.fields["snippet"].fields || "id" !in item.fields)))
  }

  /** One run of the loop body `m[item["id"]] = item["snippet"]["title"]`:
      Python evaluates the right-hand side before the key, and the key must be
      hashable (a string; a list or a dict raises TypeError). Gives the pair
      to store. */
  function Entry(item: Value): (r: Result<(string, Value), CategoryError>)
    ensures r.Success? <==> IsCategoryItem(item)
    ensures r.Success? ==> r.value == (Id(item), Title(item))
    ensures r.Failure? ==> (r.error == KeyError(FormatMessage) <==> MissingKey(item))
    ensures r.Failure? ==> r.error == KeyError(FormatMessage) || r.error == TypeError
  {
    var snippet :- Subscript(item, "snippet");
    var title :- Subscript(snippet, "title");
    var id :- Subscript(item, "id");
    if id.JString? then Success((id.str, title)) else Failure(TypeError)
  }

  /** The loop as a fold: store each item's entry into `acc` in turn, and stop
      at the first item whose body raises. */
  function Fold(items: seq<Value>, acc: map<string, Value>): (r: Result<map<string, Value>, CategoryError>)
    ensures r.Success? ==> acc.Keys <= r.value.Keys
    ensures r.Failure? ==> r.error == KeyError(FormatMessage) || r.error == TypeError
    decreases |items|
  {
    if items == [] then Success(acc)
    else
      var entry :- Entry(items[0]);
      Fold(items[1..], acc[entry.0 := entry.1])
  }

  /** What `get_map_category_name_by_id` returns or raises for the parsed document `data`. */
  function CategoryMapOf(data: Value): (r: Result<map<string, Value>, CategoryError>)
    ensures r.Failure? ==> r.error == KeyError(FormatMessage) || r.error == TypeError
  {
    var itemsValue :- Subscript(data, "items");
    var items :- Iterate(itemsValue);
    Fold(items, map[])
  }

  /** The builder as the source runs it: a dictionary that starts empty and
      is updated in place, one item at a time. */
  method GetMapCategoryNameById(data: Value) returns (r: Result<map<string, Value>, CategoryError>)
    ensures r == CategoryMapOf(data)
  {
    var itemsValue :- Subscript(data, "items");
    var items :- Iterate(itemsValue);
    var mapCategoryNameById: map<string, Value> := map[];
    var i := 0;
    while i < |items|
      invariant 0 <= i <= |items|
      invariant Fold(items[i..], mapCategoryNameById) == Fold(items, map[])
    {
      assert items[i..][1..] == items[i + 1..];
      var entry :- Entry(items[i]);
      mapCategoryNameById := mapCategoryNameById[entry.0 := entry.1];
      i := i + 1;
    }
    assert items[i..] == [];
    r := Success(mapCategoryNameById);
  }

  /** Every item has the expected shape. */
  ghost predicate AllCategoryItems(items: seq<Value>) {
    forall j :: 0 <= j < |items| ==> IsCategoryItem(items[j])
  }

  /** The category ids of the items. */
  ghost function Ids(items: seq<Value>): set<string>
    requires AllCategoryItems(items)
  {
    set j | 0 <= j < |items| :: Id(items[j])
  }

  /** Item `j` is the last one whose id is `k`. */
  ghost predicate IsLastWithId(items: seq<Value>, j: int, k: string)
    requires AllCategoryItems(items)
  {
    0 <= j < |items| && Id(items[j]) == k &&
    forall j' :: j < j' < |items| ==> Id(items[j']) != k
  }

  /** The fold succeeds exactly when every item has the expected shape. */
  lemma {:induction false} FoldSucceedsIff(items: seq<Value>, acc: map<string, Value>)
    ensures Fold(items, acc).Success? <==> AllCategoryItems(items)
    decreases |items|
  {
    if items != [] {
      var entry := Entry(items[0]);
      if entry.Success? {
        FoldSucceedsIff(items[1..], acc[entry.value.0 := entry.value.1]);
        assert AllCategoryItems(items) <==> AllCategoryItems(items[1..]) by {
          if AllCategoryItems(items[1..]) {
            forall j | 0 <= j < |items| ensures IsCategoryItem(items[j]) {
              if j > 0 { assert items[j] == items[1..][j - 1]; }
            }
          }
          if AllCategoryItems(items) {
            forall j | 0 <= j < |items| - 1 ensures IsCategoryItem(items[1..][j]) {
              assert items[1..][j] == items[j + 1];
            }
          }
        }
      }
    }
  }

  /** The fold stops at the first bad item: it raises that item's error and
      returns no partial mapping. */
  lemma {:induction false} FoldStopsAtFirstBadItem(items: seq<Value>, acc: map<string, Value>, j: int)
    requires 0 <= j < |items| && !IsCategoryItem(items[j])
    requires forall i :: 0 <= i < j ==> IsCategoryItem(items[i])
    ensures Fold(items, acc) == Failure(Entry(items[j]).error)
    decreases |items|
  {
    if j > 0 {
      var entry := Entry(items[0]);
      forall i | 0 <= i < j - 1 ensures IsCategoryItem(items[1..][i]) {
        assert items[1..][i] == items[i + 1];
      }
      FoldStopsAtFirstBadItem(items[1..], acc[entry.value.0 := entry.value.1], j - 1);
    }
  }

  /** Dropping the first item keeps every item well-shaped. */
  lemma AllCategoryItemsTail(items: seq<Value>)
    requires items != [] && AllCategoryItems(items)
    ensures AllCategoryItems(items[1..])
  {
    forall j | 0 <= j < |items| - 1 ensures IsCategoryItem(items[1..][j]) {
      assert items[1..][j] == items[j + 1];
    }
  }

  /** The ids of a non-empty list: the first item's id and the rest's. */
  lemma IdsCons(items: seq<Value>)
    requires items != [] && AllCategoryItems(items)
    ensures AllCategoryItems(items[1..])
    ensures Ids(items) == {Id(items[0])} + Ids(items[1..])
  {
    AllCategoryItemsTail(items);
    var rest := items[1..];
    forall k | k in Ids(items) ensures k in {Id(items[0])} + Ids(rest) {
      var j :| 0 <= j < |items| && Id(items[j]) == k;
      if j > 0 { assert items[j] == rest[j - 1]; }
    }
    forall k | k in Ids(rest) ensures k in Ids(items) {
      var j :| 0 <= j < |rest| && Id(rest[j]) == k;
      assert rest[j] == items[j + 1];
    }
  }

  /** On well-shaped items the fold adds exactly the items' ids to `acc`,
      leaves the other keys alone, and adds at most one entry per item. */
  lemma {:induction false} FoldKeys(items: seq<Value>, acc: map<string, Value>)
    requires AllCategoryItems(items)
    ensures Fold(items, acc).Success?
    ensures Fold(items, acc).value.Keys == acc.Keys + Ids(items)
    ensures forall k :: k in acc && k !in Ids(items) ==> Fold(items, acc).value[k] == acc[k]
    ensures |Fold(items, acc).value| <= |acc| + |items|
    decreases |items|
  {
    if items != [] {
      IdsCons(items);
      var acc' := acc[Id(items[0]) := Title(items[0])];
      FoldKeys(items[1..], acc');
      assert Fold(items, acc) == Fold(items[1..], acc');
    }
  }

  /** A last occurrence after the head stays a last occurrence in the tail;
      a last occurrence at the head has its id nowhere in the tail. */
  lemma LastOccurrenceInTail(items: seq<Value>, j: int)
    requires AllCategoryItems(items) && 0 <= j < |items|
    requires IsLastWithId(items, j, Id(items[j]))
    ensures AllCategoryItems(items[1..])
    ensures j > 0 ==> IsLastWithId(items[1..], j - 1, Id(items[j]))
    ensures j == 0 ==> Id(items[0]) !in Ids(items[1..])
  {
    AllCategoryItemsTail(items);
    var rest := items[1..];
    if j > 0 {
      assert items[j] == rest[j - 1];
      forall j' | j - 1 < j' < |rest| ensures Id(rest[j']) != Id(items[j]) {
        assert rest[j'] == items[j' + 1];
      }
    }
  }

  /** Last write wins: each id maps to the title of its last occurrence. */
  lemma {:induction false} FoldLastWriteWins(items: seq<Value>, acc: map<string, Value>)
    requires AllCategoryItems(items)
    ensures Fold(items, acc).Success?
    ensures forall j :: 0 <= j < |items| && IsLastWithId(items, j, Id(items[j])) ==>
      Id(items[j]) in Fold(items, acc).value && Fold(items, acc).value[Id(items[j])] == Title(items[j])
    decreases |items|
  {
    FoldKeys(items, acc);
    if items != [] {
      var rest := items[1..];
      AllCategoryItemsTail(items);
      var acc' := acc[Id(items[0]) := Title(items[0])];
      FoldLastWriteWins(rest, acc');
      FoldKeys(rest, acc');
      assert Fold(items, acc) == Fold(rest, acc');
      var m := Fold(rest, acc').value;
      forall j | 0 <= j < |items| && IsLastWithId(items, j, Id(items[j]))
        ensures Id(items[j]) in m && m[Id(items[j])] == Title(items[j])
      {
        LastOccurrenceInTail(items, j);
        if j > 0 {
          assert items[j] == rest[j - 1];
        }
      }
    }
  }

  /** Every id has a last occurrence. */
  lemma {:induction false} LastOccurrenceExists(items: seq<Value>, k: string)
    requires AllCategoryItems(items)
    requires k in Ids(items)
    ensures exists j :: IsLastWithId(items, j, k)
  {
    var j :| 0 <= j < |items| && Id(items[j]) == k;
    while exists j' :: j < j' < |items| && Id(items[j']) == k
      invariant 0 <= j < |items| && Id(items[j]) == k
      decreases |items| - j
    {
      var later :| j < later < |items| && Id(items[later]) == k;
      j := later;
    }
    assert IsLastWithId(items, j, k);
  }

  /** A well-formed document: `items` is a list of well-shaped items. The
      result maps exactly the items' ids, each one to the title of its last
      occurrence, and has no more entries than there are items. */
  lemma CategoryMapOfWellFormed(data: Value, items: seq<Value>)
    requires data.JObject? && "items" in data.fields && data.fields["items"] == JArray(items)
    requires AllCategoryItems(items)
    ensures CategoryMapOf(data).Success?
    ensures CategoryMapOf(data).value.Keys == Ids(items)
    ensures forall k :: k in CategoryMapOf(data).value ==>
      exists j :: IsLastWithId(items, j, k) && CategoryMapOf(data).value[k] == Title(items[j])
    ensures |CategoryMapOf(data).value| <= |items|
  {
    FoldKeys(items, map[]);
    FoldLastWriteWins(items, map[]);
    var m := CategoryMapOf(data).value;
    forall k | k in m
      ensures exists j :: IsLastWithId(items, j, k) && m[k] == Title(items[j])
    {
      LastOccurrenceExists(items, k);
      var j :| IsLastWithId(items, j, k);
      assert m[Id(items[j])] == Title(items[j]);
    }
  }

  /** The builder succeeds exactly on a dict whose `items` is a list of
      well-shaped items, or an empty dict or empty string (zero iterations). */
  lemma CategoryMapOfSucceedsIff(data: Value)
    ensures CategoryMapOf(data).Success? <==>
      && data.JObject? && "items" in data.fields
      && match data.fields["items"]
         case JArray(items) => AllCategoryItems(items)
         case JObject(fields) => |fields| == 0
         case JString(s) => s == ""
  {
    if data.JObject? && "items" in data.fields && data.fields["items"].JArray? {
      FoldSucceedsIff(data.fields["items"].elems, map[]);
    }
  }

  /** The top-level errors: a document that is not a dict is a TypeError; a
      dict without `items` is the format error. */
  lemma TopLevelErrors(data: Value)
    ensures !data.JObject? ==> CategoryMapOf(data) == Failure(TypeError)
    ensures data.JObject? && "items" !in data.fields ==>
      CategoryMapOf(data) == Failure(KeyError(FormatMessage))
  {
  }

  /** A missing `snippet`, `title` or `id` in the first bad item is the
      format error, and nothing of the items before it is returned. */
  lemma MissingKeyIsFormatError(data: Value, items: seq<Value>, j: int)
    requires data.JObject? && "items" in data.fields && data.fields["items"] == JArray(items)
    requires 0 <= j < |items| && MissingKey(items[j])
    requires forall i :: 0 <= i < j ==> IsCategoryItem(items[i])
    ensures CategoryMapOf(data) == Failure(KeyError(FormatMessage))
  {
    FoldStopsAtFirstBadItem(items, map[], j);
  }

  /** An empty `items` list, and likewise an empty dict or an empty string,
      which Python iterates zero times, gives the empty map. */
  lemma EmptyItemsGiveEmptyMap(data: Value)
    requires data.JObject? && "items" in data.fields
    requires data.fields["items"] == JArray([]) || data.fields["items"] == JObject(map[])
          || data.fields["items"] == JString("")
    ensures CategoryMapOf(data) == Success(map[])
  {
  }

  /** The category file of the test suite, and the same file with `items` renamed. */
  lemma ExampleCategoryFile()
    ensures var items := JArray([
        JObject(map["id" := JString("1"), "snippet" := JObject(map["title" := JString("Film & Animation")])]),
        JObject(map["id" := JString("2"), "snippet" := JObject(map["title" := JString("Autos & Vehicles")])]),
        JObject(map["id" := JString("10"), "snippet" := JObject(map["title" := JString("Music")])])]);
      && CategoryMapOf(JObject(map["items" := items])) ==
         Success(map["10" := JString("Music"), "2" := JString("Autos & Vehicles"), "1" := JString("Film & Animation")])
      && CategoryMapOf(JObject(map["no_valid" := items])) == Failure(KeyError(FormatMessage))
  {
    var film := JObject(map["id" := JString("1"), "snippet" := JObject(map["title" := JString("Film & Animation")])]);
    var autos := JObject(map["id" := JString("2"), "snippet" := JObject(map["title" := JString("Autos & Vehicles")])]);
    var music := JObject(map["id" := JString("10"), "snippet" := JObject(map["title" := JString("Music")])]);
    var items := [film, autos, music];
    assert Entry(film) == Success(("1", JString("Film & Animation")));
    assert Entry(autos) == Success(("2", JString("Autos & Vehicles")));
    assert Entry(music) == Success(("10", JString("Music")));
    var m1 := map["1" := JString("Film & Animation")];
    var m2 := m1["2" := JString("Autos & Vehicles")];
    var m3 := m2["10" := JString("Music")];
    assert items[1..] == [autos, music] && items[1..][1..] == [music];
    assert Fold([music], m2) == Success(m3);
    assert Fold([autos, music], m1) == Success(m3);
    assert Fold(items, map[]) == Success(m3);
    assert m3 == map["10" := JString("Music"), "2" := JString("Autos & Vehicles"), "1" := JString("Film & Animation")];
  }
}
