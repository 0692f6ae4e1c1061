# In-memory collection resource at `/example-path`

The service keeps one process-wide, ordered list of JSON items, seeded with
`"koala"` at start-up, and exposes three handlers on it:

- GET returns the whole list with status 200 and changes nothing;
- POST appends the parsed request body to the end and echoes it with 201;
- DELETE removes the first item equal to the request body, answering 200
  `{"message": "Data deleted"}`, or leaves the list alone and answers 404
  `{"message": "Data not found"}`.

The model has three modules:

- `Json` (json.dfy): the parsed JSON value (`Value`) and Python's `==` on it
  (`Equal`). In Python `True == 1 == 1.0`, lists compare element by element
  and dicts by keys and values. So "equal" in DELETE is not identity of
  values. `Equal` is proved to be an equivalence relation.
- `Collection` (collection.dfy): the list as `seq<Value>`, the membership
  test `in` (`Occurs`), a reference definition of `list.remove`
  (`RemoveFirst`), and the linear search both of them perform (`Find`). Its
  lemmas pin down what a removal does, partly in terms of Python's
  `list.count` (`Count`), which the code itself never calls.
- `ExampleApp` (app.dfy): the store as a class whose `items` field the
  handlers update in place, the status codes and messages, and client methods
  that replay request sequences.

## Model

| member | source | states |
|---|---|---|
| `Json.Equal` | example/app.py:24-25 | Python's `==` on parsed JSON values, which `in` and `remove` compare with; equal values are of the same kind, except that bools and numbers compare with each other by numeric value, with `True` as 1 and `False` as 0 |
| `Json.EqualReflexive` | example/app.py:24-25 | every JSON value is `==` to itself, nested lists and dicts included |
| `Json.EqualSymmetric` | example/app.py:24-25 | `a == b` implies `b == a`, so the order in which `in`/`remove` compare does not matter |
| `Json.EqualTransitive` | example/app.py:24-25 | `==` on JSON values is transitive (with the two above: an equivalence) |
| `Collection.Occurs` | example/app.py:24 | `x in s`: some element equals x; never in the empty list, and in a non-empty one exactly when the head or the tail holds it |
| `Collection.Count` | example/app.py:25 | Python's `list.count`, which the code never calls; defined only to state what the `remove` on this line does to the counts: how many elements equal y, at most the length of the list |
| `Collection.RemoveFirst` | example/app.py:25 | reference definition of `s.remove(x)`, element by element; the result is at most one element shorter than s |
| `Collection.Find` | example/app.py:24-25 | the scan reports found exactly when some item equals x, and then returns the first such position: no earlier item equals x |
| `Collection.FirstMatchExists` | example/app.py:25 | whenever x is in the list there is a first item equal to it, which `remove` picks |
| `Collection.RemoveFirstAt` | example/app.py:25 | removing x cuts out exactly the first equal position i: new = old[..i] + old[i+1..] |
| `Collection.RemoveFirstMiss` | example/app.py:24-27 | when no item equals x the list is unchanged |
| `Collection.CountOccurs` | example/app.py:24 | `s.count(x) > 0` exactly when `x in s` |
| `Collection.CountsAfterRemoveFirst` | example/app.py:25 | the removal shortens the list by one and takes away exactly one copy of the removed item from the multiset; `count(y)` drops by one for every y that equals the removed item and is unchanged for every other y |
| `Collection.CountsAfterDelete` | example/app.py:25 | after removing x, `count(y)` is one less for every y equal to x and unchanged for every other y |
| `Collection.CountOfRemoved` | example/app.py:25 | the count of the deleted item itself drops by exactly one |
| `Collection.RemoveOnceThenMiss` | example/app.py:24-27 | an item occurring once is found by a first deletion and absent afterwards |
| `Collection.AppendThenRemove` | example/app.py:17-25 | appending an item not yet present and then removing it gives back the original list |
| `ExampleApp.Store.constructor` | example/app.py:6 | a fresh store holds exactly `["koala"]` |
| `ExampleApp.Store.Get` | example/app.py:10-11 | status 200 and the body is the current list, in order; the store is not modified (no modifies clause) |
| `ExampleApp.Store.Post` | example/app.py:15-18 | new list = old list + [x]: one longer, earlier items at their positions, x last; response is x with 201 |
| `ExampleApp.Store.Delete` | example/app.py:22-27 | present: the first equal item is removed and the answer is 200 "Data deleted"; absent: the list is unchanged and the answer is 404 "Data not found" |
| `ExampleApp.PostTwice` | example/app.py:15-18 | posting a then b leaves old + [a, b], a before b at the end, both echoed with 201 |
| `ExampleApp.DeleteTwice` | example/app.py:22-27 | deleting an item that occurs once, twice in a row, yields 200 then 404 |
| `ExampleApp.Session` | example/app.py:6-27 | from start-up: GET `["koala"]`; POST "dog" echoes 201; GET `["koala","dog"]`; DELETE "koala" 200; GET `["dog"]` |
| `ExampleApp.MissSession` | example/app.py:6-27 | from start-up: DELETE "zebra" 404 and GET still `["koala"]`; DELETE "koala" 200, then again 404; GET `[]` |
| `ExampleApp.DeleteByNumericValue` | example/app.py:24-26 | after POST 1, DELETE `true` succeeds and removes the 1, since Python's `==` makes them equal |

## Left out

- Flask routing, the `app` object and the route decorators (lines 1-3, 9, 14, 21): HTTP plumbing in a library that is not part of this model.
- `request.json` parsing (lines 16, 23) and its failures on a missing or malformed body: handlers take an already parsed `Json.Value`. The code has no path for a missing or malformed body, so neither does the model.
- `jsonify` serialisation: response bodies are kept as `Json.Value`s.
- Floating point: numbers are exact `real`s, so NaN and the infinities (which Python's JSON parser accepts), the sign of a zero (a body `-0.0` is echoed and listed as `-0.0`, while `Number(0.0)` has no sign), and the rounding of decimal literals to doubles are not modelled. So neither is the identity shortcut in Python's `in`, which matters only for NaN.
- Duplicate keys inside one JSON object (the parser keeps the last one): a parser matter, objects are maps.
- `in` and `list.remove` each scan the list (lines 24, 25). The model does one scan (`Collection.Find`) and uses its index for the removal. Both scans use the same `==`, so they agree; `remove`'s "not found" error can never be raised after a successful `in`.
- Concurrency between requests and the deployment around the app: neither is logic in the code.
- Json.Value: a parsed `1` (an int) and `1.0` (a float) are different Python objects that `jsonify` writes back as `1` and `1.0` (lines 11, 18); `Number(n: real)` makes them one value, so the echoed POST body and the GET body do not keep that difference. Python's `==` treats them as equal, and that part is modelled.
- Json.Value: strings are Dafny strings of Unicode scalar values, so a string holding a lone surrogate (the parser turns the body `"\ud800"` into the one-character string `'\ud800'`) can be stored by the service but cannot be expressed in the model.
