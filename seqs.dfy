/** Splitting sequences at a separator, as `String.prototype.split` and `indexOf` do. */
module Seqs {
  import opened Wrappers

  /** The part before the first `sep`, and the part after it if `sep` occurs. */
  function SplitAtFirst<T(==)>(s: seq<T>, sep: T): (r: (seq<T>, Option<seq<T>>))
    ensures sep !in r.0
    ensures r.1.None? <==> sep !in s
    ensures r.1.None? ==> r.0 == s
    ensures r.1.Some? ==> s == r.0 + [sep] + r.1.value
  {
    if |s| == 0 then ([], None)
    else if s[0] == sep then ([], Some(s[1..]))
    else
      var rest := SplitAtFirst(s[1..], sep);
      assert s == [s[0]] + s[1..];
      ([s[0]] + rest.0, rest.1)
  }

  /** The first `sep` is found right after a prefix that does not contain it. */
  lemma {:induction false} SplitAtFirstUnique<T>(a: seq<T>, sep: T, b: seq<T>)
    requires sep !in a
    ensures SplitAtFirst(a + [sep] + b, sep) == (a, Some(b))
  {
    var s := a + [sep] + b;
    if a == [] {
      assert s[1..] == b;
    } else {
      assert s[1..] == a[1..] + [sep] + b;
      SplitAtFirstUnique(a[1..], sep, b);
      assert [a[0]] + a[1..] == a;
    }
  }

  /** All pieces between occurrences of `sep`, in order (never empty, like `split`). */
  function Split<T(==)>(s: seq<T>, sep: T): (r: seq<seq<T>>)
    ensures |r| >= 1
    ensures forall i :: 0 <= i < |r| ==> sep !in r[i]
    decreases |s|
  {
    var (head, tail) := SplitAtFirst(s, sep);
    match tail
    case None => [head]
    case Some(rest) => [head] + Split(rest, sep)
  }

  lemma SplitConcat<T>(a: seq<T>, sep: T, b: seq<T>)
    requires sep !in a
    ensures Split(a + [sep] + b, sep) == [a] + Split(b, sep)
  {
    SplitAtFirstUnique(a, sep, b);
  }

  lemma SplitNoSeparator<T>(a: seq<T>, sep: T)
    requires sep !in a
    ensures Split(a, sep) == [a]
  {
  }
}
