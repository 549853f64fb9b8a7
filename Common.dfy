/** Small shared vocabulary: optional values, results, and the bounded
    lists the session keeps (newest-N logs, first-N histories). */
module Common {

  datatype Option<+T> = None | Some(value: T) {
    function GetOr(default: T): T {
      match this
      case Some(v) => v
      case None => default
    }
  }

  datatype Result<+R, +E> = Ok(value: R) | Err(error: E)

  /** Keeps the newest `cap` elements of `s` (drops from the front), the shape of
      `append` followed by `removeFirst(count - cap)`. */
  function KeepNewest<T>(s: seq<T>, cap: nat): (r: seq<T>)
    ensures |r| <= cap && |r| <= |s|
    ensures |s| <= cap ==> r == s
    ensures |s| > cap ==> |r| == cap
    ensures r == s[|s| - |r|..]
  {
    if |s| > cap then s[|s| - cap..] else s
  }

  /** Keeps the first `cap` elements of `s` (drops from the back), the shape of
      `insert(at: 0)` followed by `removeLast(count - cap)`. */
  function KeepFirst<T>(s: seq<T>, cap: nat): (r: seq<T>)
    ensures |r| <= cap && |r| <= |s|
    ensures |s| <= cap ==> r == s
    ensures |s| > cap ==> |r| == cap
    ensures r == s[..|r|]
  {
    if |s| > cap then s[..cap] else s
  }

  /** Appending one element and keeping the newest `cap` (cap > 0) always keeps
      the appended element, as the last one, and the survivors in order. */
  lemma AppendKeepNewest<T>(s: seq<T>, x: T, cap: nat)
    requires cap > 0
    ensures var r := KeepNewest(s + [x], cap);
      && |r| > 0 && r[|r| - 1] == x
      && r[..|r| - 1] == s[|s| + 1 - |r|..]
  {
    var r := KeepNewest(s + [x], cap);
    assert r == (s + [x])[|s| + 1 - |r|..];
  }

  /** Putting the head back in front of the tail, ahead of anything appended. */
  lemma ConsAppend<T>(a: seq<T>, r: seq<T>)
    requires |a| > 0
    ensures (a + r)[0] == a[0] && (a + r)[1..] == a[1..] + r
    ensures [a[0]] + (a[1..] + r) == a + r
  {
  }

  lemma AppendAssoc<T>(a: seq<T>, b: seq<T>, c: seq<T>)
    ensures a + b + c == a + (b + c)
  {
  }

  lemma AppendAssoc3<T>(a: seq<T>, b: seq<T>, c: seq<T>, d: seq<T>)
    ensures a + b + c + d == a + (b + c + d)
  {
    AppendAssoc(a, b, c);
    AppendAssoc(a, b + c, d);
  }

  /** Slicing a concatenation at a point inside its first part. */
  lemma HeadTail<T>(a: seq<T>)
    requires |a| > 0
    ensures [a[0]] + a[1..] == a
  {
  }

  /** Removing index `i > 0` commutes with splitting off the head. */
  lemma ConsSplice<T>(a: seq<T>, i: nat)
    requires 0 < i < |a|
    ensures [a[0]] + (a[1..][..i - 1] + a[1..][i..]) == a[..i] + a[i + 1..]
  {
    assert a[..i] == [a[0]] + a[1..][..i - 1];
    assert a[i + 1..] == a[1..][i..];
  }

  lemma PivotSplit<T>(a: seq<T>, i: nat)
    requires i < |a|
    ensures a == a[..i] + [a[i]] + a[i + 1..]
  {
  }

  lemma SliceConcat<T>(a: seq<T>, b: seq<T>, i: nat)
    requires i < |a|
    ensures (a + b)[..i] == a[..i] && (a + b)[i + 1..] == a[i + 1..] + b
  {
  }
}
