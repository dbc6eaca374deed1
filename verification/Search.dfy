/** The search for one byte string in another (find_bytes of src/server/web.rs). */
module Search {
  import opened Wrappers
  import opened BanchoTypes
  import opened Sequences

  predicate At(s: bytes, needle: bytes, i: nat) {
    i + |needle| <= |s| && s[i..i + |needle|] == needle
  }

  // The first place the needle stands at. An empty needle is never found.
  function Find(s: bytes, needle: bytes): (r: Option<nat>)
    ensures r.Some? ==> r.value + |needle| <= |s|
    decreases |s|
  {
    if needle == [] || |s| < |needle| then None
    else if s[..|needle|] == needle then Some(0)
    else match Find(s[1..], needle)
      case None => None
      case Some(i) => Some(i + 1)
  }

  predicate Free(s: bytes, needle: bytes) {
    Find(s, needle).None?
  }

  lemma {:induction false} FindIsFirst(s: bytes, needle: bytes)
    requires needle != []
    ensures Find(s, needle).Some? ==> At(s, needle, Find(s, needle).value)
    ensures forall i: nat :: i <= |s| && (Find(s, needle).Some? ==> i < Find(s, needle).value) ==> !At(s, needle, i)
    decreases |s|
  {
    if |s| >= |needle| && s[..|needle|] != needle {
      FindIsFirst(s[1..], needle);
      forall i: nat | 0 < i <= |s| ensures At(s, needle, i) <==> At(s[1..], needle, i - 1) {
        if i + |needle| <= |s| { SliceOfSuffix(s, 1, i, |needle|); }
      }
    }
  }

  lemma FoundAt(s: bytes, needle: bytes, k: nat)
    requires needle != [] && At(s, needle, k) && forall i: nat :: i < k ==> !At(s, needle, i)
    ensures Find(s, needle) == Some(k)
  {
    FindIsFirst(s, needle);
  }

  // find_bytes
  method FindBytes(s: bytes, needle: bytes) returns (r: Option<nat>)
    ensures r == Find(s, needle)
  {
    if needle == [] || |s| < |needle| { return None; }
    var i := 0;
    while i + |needle| <= |s|
      invariant i <= |s| && Find(s, needle) == Shift(Find(s[i..], needle), i)
    {
      if s[i..i + |needle|] == needle {
        assert s[i..][..|needle|] == needle;
        return Some(i);
      }
      assert s[i..][..|needle|] == s[i..i + |needle|] && s[i..][1..] == s[i + 1..];
      i := i + 1;
    }
    return None;
  }

  function Shift(r: Option<nat>, n: nat): Option<nat> {
    match r
    case None => None
    case Some(i) => Some(i + n)
  }

  predicate StartsWith(s: bytes, front: bytes) {
    |front| <= |s| && s[..|front|] == front
  }

  lemma FoundHere(s: bytes, needle: bytes)
    requires needle != [] && StartsWith(s, needle)
    ensures Find(s, needle) == Some(0)
  {
  }

  lemma SkipByte(b: u8, rest: bytes, needle: bytes)
    requires needle != [] && needle[0] != b
    ensures Find([b] + rest, needle) == Shift(Find(rest, needle), 1)
  {
    assert ([b] + rest)[1..] == rest;
    if |rest| + 1 >= |needle| { assert ([b] + rest)[..|needle|][0] == b; }
  }

  lemma FindOneFurther(s: bytes, needle: bytes)
    requires s != [] && needle != [] && !StartsWith(s, needle)
    ensures Find(s, needle) == Shift(Find(s[1..], needle), 1)
  {
  }
}
