/**
 * The few JavaScript notions the control panel's logic leans on: values with
 * their truthiness and strict equality, plain objects used as dictionaries,
 * property keys, and the editing mode every entity element carries.
 */
module Js {

  datatype Option<T> = None | Some(value: T)

  /** A JavaScript value as it occurs in bridge data and light states.
      `Obj` stands for an object or array; its `ref` is its identity, so two
      distinct objects are never equal, as with `===`. */
  datatype JsValue =
    | Undefined
    | Null
    | Bool(b: bool)
    | Num(n: int)
    | NaN
    | Str(s: string)
    | Obj(ref: nat)

  /** `!!v` */
  predicate Truthy(v: JsValue)
  {
    match v
    case Undefined => false
    case Null => false
    case Bool(b) => b
    case Num(n) => n != 0
    case NaN => false
    case Str(s) => s != ""
    case Obj(_) => true
  }

  /** `a === b`: NaN is the one value that is not strictly equal to itself. */
  predicate StrictEq(a: JsValue, b: JsValue)
  {
    a == b && a != NaN
  }

  /** A plain object used as a record of optional fields (a light state). */
  type State = map<string, JsValue>

  /** `m[k]`: an absent key reads as undefined. */
  function Get(m: State, k: string): (v: JsValue)
    ensures k !in m ==> v == Undefined
    ensures k in m ==> v == m[k]
  {
    if k in m then m[k] else Undefined
  }

  /** The property key an id becomes when it indexes an object: `obj[null]`
      reads the property named "null". */
  function PropKey(id: Option<string>): (k: string)
    ensures id.Some? ==> k == id.value
    ensures id.None? ==> k == "null"
  {
    match id
    case Some(s) => s
    case None => "null"
  }

  /** `if (id)` for an id that is a string or null. */
  predicate TruthyId(id: Option<string>)
  {
    id.Some? && id.value != ""
  }

  /** The editing lifecycle tag of a light, group or scene element. */
  datatype Mode = New | Unsaved | Changed | Saved

  /** No element occurs twice. */
  predicate Distinct<T(==)>(s: seq<T>)
  {
    forall i, j {:trigger Differ(s, i, j)} :: 0 <= i < j < |s| ==> Differ(s, i, j)
  }

  /** Positions `i` and `j` hold different elements. */
  predicate Differ<T(==)>(s: seq<T>, i: nat, j: nat)
    requires i < |s| && j < |s|
  {
    s[i] != s[j]
  }

  /** The elements of a sequence, as a set. */
  function Elements<T>(s: seq<T>): set<T>
  {
    set x | x in s
  }

  /** Appending an element adds just that element. */
  lemma ElementsSnoc<T>(s: seq<T>, x: T)
    ensures Elements(s + [x]) == Elements(s) + {x}
  {
    assert forall y :: y in s + [x] <==> y in s || y == x;
  }

  /** `order` lists every key of an object exactly once: an abstraction of the
      order in which `for…in` and `Object.keys` visit the keys. */
  predicate Enumerates<K(==)>(order: seq<K>, keys: set<K>)
  {
    Distinct(order) && Elements(order) == keys
  }

  /** The keys of an entry list (`Object.entries` of a bridge response). */
  function Keys<K, V>(entries: seq<(K, V)>): (ks: seq<K>)
    ensures |ks| == |entries|
    ensures forall i :: 0 <= i < |entries| ==> ks[i] == entries[i].0
  {
    if entries == [] then [] else [entries[0].0] + Keys(entries[1..])
  }

  /** `arr.filter(x => x !== e)`: every occurrence of `e` removed, order kept. */
  function Without<T(==)>(s: seq<T>, e: T): seq<T>
  {
    if s == [] then []
    else if s[0] == e then Without(s[1..], e)
    else [s[0]] + Without(s[1..], e)
  }

  /** What `Without` keeps: exactly the other elements, none added. */
  lemma {:induction false} WithoutMeaning<T>(s: seq<T>, e: T)
    ensures forall x :: x in Without(s, e) <==> x in s && x != e
    ensures |Without(s, e)| <= |s|
  {
    if s != [] {
      WithoutMeaning(s[1..], e);
      assert s == [s[0]] + s[1..];
    }
  }
}
