/** JavaScript's `split` by one character and `join`. */
module Splitting {

  /** `text.split(separator)` for a one-character separator. */
  function Split<T(==)>(t: seq<T>, separator: T): (r: seq<seq<T>>)
    ensures r != []
    ensures forall i :: 0 <= i < |r| ==> separator !in r[i]
  {
    if t == [] then [[]]
    else
      var rest := Split(t[1..], separator);
      if t[0] == separator then [[]] + rest else [[t[0]] + rest[0]] + rest[1..]
  }

  /** `parts.join(separator)`. */
  function Join<T>(parts: seq<seq<T>>, separator: T): seq<T> {
    if parts == [] then []
    else if |parts| == 1 then parts[0]
    else parts[0] + [separator] + Join(parts[1..], separator)
  }

  lemma {:induction false} SplitPlain<T>(t: seq<T>, separator: T)
    requires separator !in t
    ensures Split(t, separator) == [t]
  {
    if t != [] {
      SplitPlain(t[1..], separator);
      assert t == [t[0]] + t[1..];
    }
  }

  lemma {:induction false} SplitFirst<T>(part: seq<T>, rest: seq<T>, separator: T)
    requires separator !in part
    ensures Split(part + [separator] + rest, separator) == [part] + Split(rest, separator)
  {
    var t := part + [separator] + rest;
    if part == [] {
      assert t[1..] == rest;
    } else {
      assert t[1..] == part[1..] + [separator] + rest;
      SplitFirst(part[1..], rest, separator);
      assert part == [part[0]] + part[1..];
      assert ([part[1..]] + Split(rest, separator))[1..] == Split(rest, separator);
    }
  }

  /** Splitting undoes joining parts that do not hold the separator. */
  lemma {:induction false} SplitOfJoin<T>(parts: seq<seq<T>>, separator: T)
    requires parts != [] && forall i :: 0 <= i < |parts| ==> separator !in parts[i]
    ensures Split(Join(parts, separator), separator) == parts
  {
    if |parts| == 1 {
      SplitPlain(parts[0], separator);
    } else {
      SplitOfJoin(parts[1..], separator);
      SplitFirst(parts[0], Join(parts[1..], separator), separator);
      assert parts == [parts[0]] + parts[1..];
    }
  }

  lemma {:induction false} JoinSafe<T>(parts: seq<seq<T>>, separator: T, banned: T)
    requires banned != separator && forall i :: 0 <= i < |parts| ==> banned !in parts[i]
    ensures banned !in Join(parts, separator)
  {
    if |parts| > 1 { JoinSafe(parts[1..], separator, banned); }
  }
}
