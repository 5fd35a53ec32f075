/**
 * The two ways the script picks entries out of a directory listing: a list
 * comprehension that keeps every matching entry in listing order, and a
 * `for ... break` search that stops at the first match.
 */
module Listing {
  import opened Wrappers

  /** `[f for f in s if p(f)]`. */
  function Keep(s: seq<string>, p: string -> bool): (r: seq<string>)
    ensures |r| <= |s|
    ensures forall f :: f in r <==> f in s && p(f)
  {
    if s == [] then []
    else
      assert s == [s[0]] + s[1..];
      (if p(s[0]) then [s[0]] else []) + Keep(s[1..], p)
  }

  /** The comprehension keeps each matching entry as often as the listing holds it. */
  lemma {:induction false} KeepCounts(s: seq<string>, p: string -> bool, f: string)
    ensures multiset(Keep(s, p))[f] == if p(f) then multiset(s)[f] else 0
  {
    if s != [] {
      assert s == [s[0]] + s[1..];
      KeepCounts(s[1..], p, f);
    }
  }

  /** The first entry of `s` that satisfies `p`, if any. */
  function FirstMatch(s: seq<string>, p: string -> bool): (r: Option<string>)
    ensures r.Some? ==> r.value in s && p(r.value)
    ensures r.None? ==> forall f :: f in s ==> !p(f)
  {
    if s == [] then None
    else if p(s[0]) then Some(s[0])
    else FirstMatch(s[1..], p)
  }

  /**
   * `FirstMatch` finds nothing exactly when no entry matches, and otherwise
   * finds the entry at the smallest matching position.
   */
  lemma {:induction false} FirstMatchSpec(s: seq<string>, p: string -> bool)
    ensures FirstMatch(s, p).None? <==> forall i :: 0 <= i < |s| ==> !p(s[i])
    ensures FirstMatch(s, p).Some? ==>
      exists i :: 0 <= i < |s| && s[i] == FirstMatch(s, p).value && p(s[i]) &&
        forall j :: 0 <= j < i ==> !p(s[j])
  {
    if s != [] && !p(s[0]) {
      FirstMatchSpec(s[1..], p);
      if FirstMatch(s, p).Some? {
        var i :| 0 <= i < |s[1..]| && s[1..][i] == FirstMatch(s, p).value && p(s[1..][i]) &&
          forall j :: 0 <= j < i ==> !p(s[1..][j]);
        assert s[i + 1] == s[1..][i];
        forall j | 0 <= j < i + 1
          ensures !p(s[j])
        {
          if j > 0 {
            assert s[j] == s[1..][j - 1];
          }
        }
      } else {
        forall i | 0 <= i < |s|
          ensures !p(s[i])
        {
          if i > 0 {
            assert s[i] == s[1..][i - 1];
          }
        }
      }
    }
  }

  /**
   * Taking the head of the comprehension picks the same entry as the
   * search that breaks at the first match.
   */
  lemma {:induction false} FirstMatchIsHeadOfKeep(s: seq<string>, p: string -> bool)
    ensures FirstMatch(s, p) == if Keep(s, p) == [] then None else Some(Keep(s, p)[0])
  {
    if s != [] && !p(s[0]) {
      FirstMatchIsHeadOfKeep(s[1..], p);
    }
  }
}
