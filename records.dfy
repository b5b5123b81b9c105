/** Generic list operations the record store is built from: the first-match
    search behind `find`/`findIndex`, `filter`, `some`, the find-by-index
    update, and the one-element `splice`. Each is stated over `seq`s with a
    predicate `p: T -> bool` standing for the callback the store passes. */
module Records {

  datatype Option<T> = None | Some(value: T)

  /** Position of the first element satisfying `p`, or None where
      `findIndex` answers -1. */
  function FindIndex<T>(s: seq<T>, p: T -> bool): (r: Option<nat>)
    ensures r.Some? ==> r.value < |s| && p(s[r.value])
    ensures r.Some? ==> forall j :: 0 <= j < r.value ==> !p(s[j])
    ensures r.None? ==> forall j :: 0 <= j < |s| ==> !p(s[j])
  {
    if |s| == 0 then None
    else if p(s[0]) then Some(0)
    else match FindIndex(s[1..], p)
      case None => None
      case Some(k) => Some(k + 1)
  }

  /** `k` is the position of the first element satisfying `p`. */
  ghost predicate FirstMatch<T>(s: seq<T>, p: T -> bool, k: int) {
    0 <= k < |s| && p(s[k]) && forall j :: 0 <= j < k ==> !p(s[j])
  }

  /** No element of `s` satisfies `p`. */
  ghost predicate NoMatch<T>(s: seq<T>, p: T -> bool) {
    forall j :: 0 <= j < |s| ==> !p(s[j])
  }

  /** The first element satisfying `p` (`Array.prototype.find`). */
  function Find<T>(s: seq<T>, p: T -> bool): (r: Option<T>)
    ensures r.None? <==> NoMatch(s, p)
    ensures r.Some? ==> exists k :: FirstMatch(s, p, k) && s[k] == r.value
  {
    match FindIndex(s, p)
    case None => None
    case Some(k) => assert FirstMatch(s, p, k); Some(s[k])
  }

  /** Whether some element satisfies `p` (`Array.prototype.some`). */
  function Any<T>(s: seq<T>, p: T -> bool): (r: bool)
    ensures r <==> exists i :: 0 <= i < |s| && p(s[i])
  {
    if |s| == 0 then false
    else if p(s[0]) then true
    else
      var rest := Any(s[1..], p);
      assert rest <==> exists i :: 1 <= i < |s| && p(s[i]) by {
        if rest {
          var i :| 0 <= i < |s[1..]| && p(s[1..][i]);
          assert p(s[i + 1]);
        }
      }
      rest
  }

  /** How many elements satisfy `p`. */
  function Count<T>(s: seq<T>, p: T -> bool): nat {
    if |s| == 0 then 0 else (if p(s[0]) then 1 else 0) + Count(s[1..], p)
  }

  /** The elements satisfying `p`, in order (`Array.prototype.filter`):
      one entry per satisfying element, as `FilterSingleton` and
      `FilterAppend` pin down. */
  function Filter<T>(s: seq<T>, p: T -> bool): (r: seq<T>)
    ensures |r| == Count(s, p)
    ensures forall i :: 0 <= i < |r| ==> r[i] in s && p(r[i])
    ensures forall i :: 0 <= i < |s| && p(s[i]) ==> s[i] in r
  {
    if |s| == 0 then []
    else
      var rest := Filter(s[1..], p);
      assert s == [s[0]] + s[1..];
      if p(s[0]) then [s[0]] + rest else rest
  }

  /** A one-element list is kept exactly when its element satisfies `p`. */
  lemma FilterSingleton<T>(x: T, p: T -> bool)
    ensures p(x) ==> Filter([x], p) == [x]
    ensures !p(x) ==> Filter([x], p) == []
  {
    assert [x][1..] == [];
  }

  /** Filtering a concatenation filters each part and keeps their order. */
  lemma {:induction false} FilterAppend<T>(a: seq<T>, b: seq<T>, p: T -> bool)
    ensures Filter(a + b, p) == Filter(a, p) + Filter(b, p)
  {
    if |a| == 0 {
      assert a + b == b;
    } else {
      assert (a + b)[1..] == a[1..] + b;
      FilterAppend(a[1..], b, p);
    }
  }

  lemma {:induction false} CountAppend<T>(a: seq<T>, b: seq<T>, p: T -> bool)
    ensures Count(a + b, p) == Count(a, p) + Count(b, p)
  {
    if |a| > 0 {
      assert (a + b)[1..] == a[1..] + b;
      CountAppend(a[1..], b, p);
    } else {
      assert a + b == b;
    }
  }

  /** The find-by-index update: replace the first element satisfying `p` by
      `f` of it, or report that there is none. */
  function UpdateFirst<T>(s: seq<T>, p: T -> bool, f: T -> T): (r: Option<seq<T>>)
    ensures r.None? <==> NoMatch(s, p)
    ensures r.Some? ==> |r.value| == |s|
    ensures r.Some? ==> exists k :: (FirstMatch(s, p, k) && r.value[k] == f(s[k])
                                     && forall j :: 0 <= j < |s| && j != k ==> r.value[j] == s[j])
  {
    match FindIndex(s, p)
    case None => None
    case Some(k) => assert FirstMatch(s, p, k); Some(s[k := f(s[k])])
  }

  /** The first match is the one `FindIndex` reports. */
  lemma FirstMatchIsFound<T>(s: seq<T>, p: T -> bool, k: int)
    requires FirstMatch(s, p, k)
    ensures FindIndex(s, p) == Some(k)
  {
  }

  /** Applying an update twice is applying it once, when `f` keeps the
      element matching and is itself idempotent. */
  lemma {:induction false} UpdateFirstIdempotent<T>(s: seq<T>, p: T -> bool, f: T -> T)
    requires forall x :: p(x) ==> p(f(x)) && f(f(x)) == f(x)
    ensures UpdateFirst(s, p, f).Some? ==>
      UpdateFirst(UpdateFirst(s, p, f).value, p, f) == UpdateFirst(s, p, f)
  {
    match FindIndex(s, p)
    case None =>
    case Some(k) =>
      var once := s[k := f(s[k])];
      assert FirstMatch(once, p, k);
      FirstMatchIsFound(once, p, k);
      assert once[k := f(once[k])] == once;
  }

  /** Remove the first element satisfying `p`, keeping the order of the
      rest; nothing changes when there is none (`findIndex` + `splice`). */
  function RemoveFirst<T>(s: seq<T>, p: T -> bool): (r: seq<T>)
    ensures NoMatch(s, p) ==> r == s
    ensures !NoMatch(s, p) ==> |r| == |s| - 1
    ensures !NoMatch(s, p) ==> exists k :: FirstMatch(s, p, k) && r[..k] == s[..k] && r[k..] == s[k + 1..]
  {
    match FindIndex(s, p)
    case None => s
    case Some(k) =>
      assert FirstMatch(s, p, k);
      var r := s[..k] + s[k + 1..];
      assert r[..k] == s[..k] && r[k..] == s[k + 1..];
      r
  }

  /** Removal takes out exactly one matching element when there is one. */
  lemma RemoveFirstCount<T>(s: seq<T>, p: T -> bool)
    ensures NoMatch(s, p) ==> Count(RemoveFirst(s, p), p) == Count(s, p)
    ensures !NoMatch(s, p) ==> Count(RemoveFirst(s, p), p) == Count(s, p) - 1
  {
    match FindIndex(s, p)
    case None =>
    case Some(k) =>
      assert s == s[..k] + [s[k]] + s[k + 1..];
      CountAppend(s[..k] + [s[k]], s[k + 1..], p);
      CountAppend(s[..k], [s[k]], p);
      CountAppend(s[..k], s[k + 1..], p);
  }

  /** An element appended behind elements that do not match is found at
      the end. */
  lemma AppendedIsFound<T>(s: seq<T>, x: T, p: T -> bool)
    requires NoMatch(s, p) && p(x)
    ensures FindIndex(s + [x], p) == Some(|s|)
  {
    assert FirstMatch(s + [x], p, |s|);
    FirstMatchIsFound(s + [x], p, |s|);
  }

  /** Removing a just-appended element that nothing before it matches gives
      back the original list. */
  lemma RemoveAppended<T>(s: seq<T>, x: T, p: T -> bool)
    requires NoMatch(s, p) && p(x)
    ensures RemoveFirst(s + [x], p) == s
  {
    AppendedIsFound(s, x, p);
    assert (s + [x])[..|s|] == s;
  }
}
