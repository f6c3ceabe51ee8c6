/**
 * The two comparators used to order lights, groups and scenes in the lists
 * of the configuration view (js/modules/utils/sorter.js).
 *
 * A comparator reads an optional property (`a?.name`, `a?.room`) that is a
 * string or undefined. JavaScript's `>` on two strings compares them code
 * unit by code unit; with undefined on either side it converts both sides to
 * numbers, gets NaN, and answers false.
 */
module Sorter {
  import opened Js

  /** The two properties the comparators read; `None` is undefined. */
  datatype Props = Props(name: Option<string>, room: Option<string>)

  /** `a?.name`: undefined when `a` itself is undefined. */
  function NameOf(a: Option<Props>): Option<string>
  {
    if a.Some? then a.value.name else None
  }

  /** `a?.room` */
  function RoomOf(a: Option<Props>): Option<string>
  {
    if a.Some? then a.value.room else None
  }

  /** `a < b` on two strings: lexicographic order of their code units. */
  predicate StrLess(a: string, b: string)
    decreases |a|
  {
    if a == [] then b != []
    else if b == [] then false
    else if a[0] != b[0] then a[0] < b[0]
    else StrLess(a[1..], b[1..])
  }

  /** `x > y` on two property values. */
  predicate Greater(x: Option<string>, y: Option<string>)
  {
    x.Some? && y.Some? && StrLess(y.value, x.value)
  }

  /** The shared body of both comparators: 0 on `===`, else 1 or -1 by `>`. */
  function Compare(x: Option<string>, y: Option<string>): (r: int)
    ensures r == 0 <==> x == y
    ensures r == 1 || r == 0 || r == -1
  {
    if x == y then 0 else if Greater(x, y) then 1 else -1
  }

  /** sorter.byNameAsc */
  function ByNameAsc(a: Option<Props>, b: Option<Props>): int
  {
    Compare(NameOf(a), NameOf(b))
  }

  /** sorter.byRoomAsc */
  function ByRoomAsc(a: Option<Props>, b: Option<Props>): int
  {
    Compare(RoomOf(a), RoomOf(b))
  }

  lemma {:induction false} StrLessIrreflexive(a: string)
    ensures !StrLess(a, a)
    decreases |a|
  {
    if a != [] {
      StrLessIrreflexive(a[1..]);
    }
  }

  /** Two different strings are ordered one way or the other, never both. */
  lemma {:induction false} StrLessTrichotomy(a: string, b: string)
    requires a != b
    ensures StrLess(a, b) != StrLess(b, a)
    decreases |a|
  {
    if a != [] && b != [] && a[0] == b[0] {
      assert a == [a[0]] + a[1..] && b == [b[0]] + b[1..];
      StrLessTrichotomy(a[1..], b[1..]);
    }
  }

  lemma {:induction false} StrLessTransitive(a: string, b: string, c: string)
    requires StrLess(a, b) && StrLess(b, c)
    ensures StrLess(a, c)
    decreases |a|
  {
    if a != [] && b != [] && c != [] && a[0] == b[0] && b[0] == c[0] {
      StrLessTransitive(a[1..], b[1..], c[1..]);
    }
  }

  /** On string names the comparator is antisymmetric: swapping the
      arguments negates the result. */
  lemma ByNameAscAntisymmetric(a: Props, b: Props)
    requires a.name.Some? && b.name.Some?
    ensures ByNameAsc(Some(a), Some(b)) == -ByNameAsc(Some(b), Some(a))
  {
    if a.name != b.name {
      StrLessTrichotomy(a.name.value, b.name.value);
    }
  }

  /** On string names the comparator agrees with lexicographic order. */
  lemma ByNameAscAgreesWithStrLess(a: Props, b: Props)
    requires a.name.Some? && b.name.Some?
    ensures ByNameAsc(Some(a), Some(b)) < 0 <==> StrLess(a.name.value, b.name.value)
    ensures ByNameAsc(Some(a), Some(b)) > 0 <==> StrLess(b.name.value, a.name.value)
  {
    if a.name == b.name {
      StrLessIrreflexive(a.name.value);
    } else {
      StrLessTrichotomy(a.name.value, b.name.value);
    }
  }

  /** On string names "sorts no later than" is transitive, so byNameAsc is a
      consistent comparator for `Array.prototype.sort`. */
  lemma ByNameAscTransitive(a: Props, b: Props, c: Props)
    requires a.name.Some? && b.name.Some? && c.name.Some?
    requires ByNameAsc(Some(a), Some(b)) <= 0 && ByNameAsc(Some(b), Some(c)) <= 0
    ensures ByNameAsc(Some(a), Some(c)) <= 0
  {
    var x, y, z := a.name.value, b.name.value, c.name.value;
    ByNameAscAgreesWithStrLess(a, b);
    ByNameAscAgreesWithStrLess(b, c);
    ByNameAscAgreesWithStrLess(a, c);
    if x != y && y != z {
      StrLessTransitive(x, y, z);
    }
  }

  /** With undefined on one side and a string on the other, `>` is false
      both ways, so each argument order sorts first: the comparator is not
      antisymmetric once an element lacks the property. */
  lemma ByRoomAscUndefinedBothFirst(a: Props, b: Props)
    requires a.room.None? && b.room.Some?
    ensures ByRoomAsc(Some(a), Some(b)) == -1
    ensures ByRoomAsc(Some(b), Some(a)) == -1
  {
  }
}
