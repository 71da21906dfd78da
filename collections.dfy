/** The two array queries the store relies on: `Array.prototype.find` and
    `Array.prototype.filter`, over Dafny sequences. */
module Collections {
  import opened Wrappers

  /** `r` can be obtained from `s` by deleting elements, keeping order. */
  ghost predicate IsSubsequence<T>(r: seq<T>, s: seq<T>)
  {
    r == [] ||
    (s != [] && ((r[0] == s[0] && IsSubsequence(r[1..], s[1..])) || IsSubsequence(r, s[1..])))
  }

  /** `Array.prototype.find`: the first element satisfying `p`, or nothing. */
  function Find<T(==)>(s: seq<T>, p: T -> bool): (r: Option<T>)
    ensures r.None? <==> forall i | 0 <= i < |s| :: !p(s[i])
    ensures r.Some? ==> exists i | 0 <= i < |s| :: s[i] == r.value && p(s[i]) && forall j | 0 <= j < i :: !p(s[j])
  {
    if s == [] then None
    else if p(s[0]) then Some(s[0])
    else
      var r := Find(s[1..], p);
      assert r.Some? ==> exists i | 1 <= i < |s| :: s[i] == r.value && p(s[i]) && forall j | 0 <= j < i :: !p(s[j]) by {
        if r.Some? {
          var i :| 0 <= i < |s[1..]| && s[1..][i] == r.value && p(s[1..][i]) && forall j | 0 <= j < i :: !p(s[1..][j]);
          assert forall j | 1 <= j < i + 1 :: !p(s[j]) by {
            forall j | 1 <= j < i + 1 ensures !p(s[j]) { assert s[j] == s[1..][j - 1]; }
          }
        }
      }
      r
  }

  /** `Array.prototype.filter`: the elements satisfying `p`, in their order. */
  function Filter<T(==,!new)>(s: seq<T>, p: T -> bool): (r: seq<T>)
    ensures forall i | 0 <= i < |r| :: p(r[i])
    ensures forall x | p(x) :: multiset(r)[x] == multiset(s)[x]
    ensures IsSubsequence(r, s)
  {
    if s == [] then []
    else
      assert s == [s[0]] + s[1..];
      var rest := Filter(s[1..], p);
      if p(s[0]) then
        assert ([s[0]] + rest)[1..] == rest;
        [s[0]] + rest
      else rest
  }

  lemma {:induction false} SubsequenceMultiset<T>(r: seq<T>, s: seq<T>)
    requires IsSubsequence(r, s)
    ensures multiset(r) <= multiset(s)
  {
    if r != [] {
      assert s == [s[0]] + s[1..];
      if r[0] == s[0] && IsSubsequence(r[1..], s[1..]) {
        SubsequenceMultiset(r[1..], s[1..]);
        assert r == [r[0]] + r[1..];
      } else {
        SubsequenceMultiset(r, s[1..]);
      }
    }
  }

  /** The three properties `Filter` promises determine its result: any
      subsequence of `s` that keeps only elements satisfying `p`, each with
      its full multiplicity in `s`, is `Filter(s, p)`. */
  lemma {:induction false} FilterUnique<T(!new)>(s: seq<T>, p: T -> bool, r: seq<T>)
    requires IsSubsequence(r, s)
    requires forall i | 0 <= i < |r| :: p(r[i])
    requires forall x | p(x) :: multiset(r)[x] == multiset(s)[x]
    ensures r == Filter(s, p)
  {
    if s != [] {
      var a, t := s[0], s[1..];
      assert s == [a] + t;
      if p(a) {
        if !(r != [] && r[0] == a && IsSubsequence(r[1..], t)) {
          // r would skip a, so it would hold fewer copies of a than s
          SubsequenceMultiset(r, t);
          assert false;
        }
        assert r == [a] + r[1..];
        FilterUnique(t, p, r[1..]);
      } else {
        assert r != [] ==> r[0] != a by {
          if r != [] { assert p(r[0]); }
        }
        FilterUnique(t, p, r);
      }
    }
  }
}
