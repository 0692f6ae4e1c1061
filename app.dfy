/** The in-memory collection resource served at `/example-path`: one store
    object holding the ordered list of items, and its GET, POST and DELETE
    handlers. Each handler takes the request body already parsed and returns
    the status code with the response body as a JSON value. */
module ExampleApp {
  import opened Json
  import opened Collection

  const OK: nat := 200
  const CREATED: nat := 201
  const NOT_FOUND: nat := 404

  const DELETED_TEXT: string := "Data deleted"
  const NOT_FOUND_TEXT: string := "Data not found"

  /** What the store holds when the process starts. */
  const SEED: Value := Str("koala")

  datatype Response = Response(status: nat, body: Value)

  /** The `{"message": text}` body of a DELETE response. */
  function Message(text: string): Value {
    Object(map["message" := Str(text)])
  }

  class Store {
    /** The collection, in insertion order; duplicates are allowed. */
    var items: seq<Value>

    constructor ()
      ensures items == [SEED]
    {
      items := [SEED];
    }

    /** GET: the whole collection, in order, with 200; nothing changes. */
    method Get() returns (r: Response)
      ensures r.status == OK && r.body.Array? && r.body.elems == items
    {
      r := Response(OK, Array(items));
    }

    /** POST: x goes to the end and is echoed back with 201. */
    method Post(x: Value) returns (r: Response)
      modifies this
      ensures items == old(items) + [x]
      ensures |items| == |old(items)| + 1 && items[..|old(items)|] == old(items) && items[|old(items)|] == x
      ensures r == Response(CREATED, x)
    {
      items := items + [x];
      r := Response(CREATED, x);
    }

    /** DELETE: if some item equals x, the first such item is removed and the
        answer is 200 "Data deleted"; otherwise nothing changes and the answer
        is 404 "Data not found". */
    method Delete(x: Value) returns (r: Response)
      modifies this
      ensures Occurs(old(items), x) ==> r == Response(OK, Message(DELETED_TEXT))
      ensures Occurs(old(items), x) ==>
        exists i :: IsFirstMatch(old(items), x, i) && items == old(items)[..i] + old(items)[i + 1..]
      ensures !Occurs(old(items), x) ==> r == Response(NOT_FOUND, Message(NOT_FOUND_TEXT)) && items == old(items)
      ensures items == RemoveFirst(old(items), x)
    {
      var found, i := Find(items, x);
      if found {
        RemoveFirstAt(items, x, i);
        items := items[..i] + items[i + 1..];
        r := Response(OK, Message(DELETED_TEXT));
      } else {
        RemoveFirstMiss(items, x);
        r := Response(NOT_FOUND, Message(NOT_FOUND_TEXT));
      }
    }
  }

  /** Two POSTs in a row put their items at the end, first before second. */
  method PostTwice(store: Store, a: Value, b: Value) returns (ra: Response, rb: Response)
    modifies store
    ensures store.items == old(store.items) + [a, b]
    ensures ra == Response(CREATED, a) && rb == Response(CREATED, b)
  {
    ra := store.Post(a);
    rb := store.Post(b);
  }

  /** Deleting an item that occurs once, twice in a row: 200, then 404. */
  method DeleteTwice(store: Store, x: Value) returns (first: Response, second: Response)
    requires Count(store.items, x) == 1
    modifies store
    ensures first == Response(OK, Message(DELETED_TEXT))
    ensures second == Response(NOT_FOUND, Message(NOT_FOUND_TEXT))
    ensures store.items == RemoveFirst(old(store.items), x)
  {
    RemoveOnceThenMiss(store.items, x);
    first := store.Delete(x);
    second := store.Delete(x);
  }

  /** A session against a freshly started process: list, add "dog", list,
      delete "koala", list. */
  method Session() returns (list1: Response, post: Response, list2: Response, del: Response,
                            list3: Response)
    ensures list1 == Response(OK, Array([SEED]))
    ensures post == Response(CREATED, Str("dog"))
    ensures list2 == Response(OK, Array([SEED, Str("dog")]))
    ensures del == Response(OK, Message(DELETED_TEXT))
    ensures list3 == Response(OK, Array([Str("dog")]))
  {
    var store := new Store();
    list1 := store.Get();
    post := store.Post(Str("dog"));
    list2 := store.Get();
    assert Equal(store.items[0], SEED);
    del := store.Delete(SEED);
    list3 := store.Get();
  }

  /** Misses against a freshly started process: deleting the absent "zebra"
      answers 404 and changes nothing; deleting "koala" twice answers 200,
      then 404. */
  method MissSession() returns (miss: Response, list1: Response, del: Response,
                                again: Response, list2: Response)
    ensures miss == Response(NOT_FOUND, Message(NOT_FOUND_TEXT))
    ensures list1 == Response(OK, Array([SEED]))
    ensures del == Response(OK, Message(DELETED_TEXT))
    ensures again == Response(NOT_FOUND, Message(NOT_FOUND_TEXT))
    ensures list2 == Response(OK, Array([]))
  {
    var store := new Store();
    assert !Equal(SEED, Str("zebra"));
    miss := store.Delete(Str("zebra"));
    list1 := store.Get();
    assert Equal(store.items[0], SEED);
    del := store.Delete(SEED);
    again := store.Delete(SEED);
    list2 := store.Get();
  }

  /** DELETE compares with Python's `==`, under which `true` equals 1: after
      posting the number 1, deleting `true` removes it. */
  method DeleteByNumericValue() returns (del: Response, list: Response)
    ensures del == Response(OK, Message(DELETED_TEXT))
    ensures list == Response(OK, Array([SEED]))
  {
    var store := new Store();
    var _ := store.Post(Number(1.0));
    assert Equal(store.items[1], Bool(true));
    del := store.Delete(Bool(true));
    list := store.Get();
  }
}
