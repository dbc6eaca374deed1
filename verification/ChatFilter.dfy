/** The chat filter of src/bancho/filter.rs. Each pass over the text, with its byte and character
    indices, is the recursive leftmost replacement; and a filter made of masks leaves nothing it
    should have masked. Lower-casing one character is a parameter, lower. */
module ChatFilter {

  // A pattern in lower case and what replaces it.
  datatype Rule = Rule(pattern: string, replacement: string)

  type Lower = char -> string

  // ---------- specification ----------

  // c is, case aside, the pattern character p.
  predicate Same(lower: Lower, c: char, p: char) {
    lower(c) == [p]
  }

  predicate OccursAt(lower: Lower, pattern: string, s: string, i: nat) {
    i + |pattern| <= |s| && forall j :: 0 <= j < |pattern| ==> Same(lower, s[i + j], pattern[j])
  }

  predicate Occurs(lower: Lower, pattern: string, s: string) {
    exists i :: 0 <= i <= |s| && OccursAt(lower, pattern, s, i)
  }

  // The leftmost occurrence goes first, and the scan goes on behind what it matched.
  function Pass(lower: Lower, rule: Rule, s: string): string {
    if rule.pattern == [] || s == [] then s
    else if OccursAt(lower, rule.pattern, s, 0) then rule.replacement + Pass(lower, rule, s[|rule.pattern|..])
    else [s[0]] + Pass(lower, rule, s[1..])
  }

  function Filtered(lower: Lower, rules: seq<Rule>, s: string): string {
    if rules == [] then s else Filtered(lower, rules[1..], Pass(lower, rules[0], s))
  }

  // ---------- hits ----------

  // The characters one by one in lower case.
  function LowerEach(lower: Lower, s: string): seq<string> {
    if s == [] then [] else [lower(s[0])] + LowerEach(lower, s[1..])
  }

  // The characters one by one as texts.
  function Letters(p: string): seq<string> {
    if p == [] then [] else [[p[0]]] + Letters(p[1..])
  }

  // From character i on the text reads, in lower case, as the pattern.
  predicate Hit(lower: Lower, p: string, s: string, i: nat) {
    i + |p| <= |s| && LowerEach(lower, s[i..i + |p|]) == Letters(p)
  }

  lemma {:induction false} ReadsAlike(lower: Lower, s: string, p: string)
    requires |s| == |p|
    ensures LowerEach(lower, s) == Letters(p) <==> forall j :: 0 <= j < |p| ==> lower(s[j]) == [p[j]]
  {
    if p != [] {
      ReadsAlike(lower, s[1..], p[1..]);
      var (a, b) := (LowerEach(lower, s), Letters(p));
      assert a[0] == lower(s[0]) && b[0] == [p[0]] && a[1..] == LowerEach(lower, s[1..]) && b[1..] == Letters(p[1..]);
      if a == b {
        forall j | 0 <= j < |p| ensures lower(s[j]) == [p[j]] {
          if j > 0 { assert lower(s[1..][j - 1]) == [p[1..][j - 1]]; }
        }
      }
      if forall j :: 0 <= j < |p| ==> lower(s[j]) == [p[j]] {
        forall j | 0 <= j < |p| - 1 ensures lower(s[1..][j]) == [p[1..][j]] { assert lower(s[j + 1]) == [p[j + 1]]; }
        assert a == [a[0]] + a[1..] && b == [b[0]] + b[1..];
      }
    }
  }

  lemma HitIsOccurrence(lower: Lower, p: string, s: string, i: nat)
    ensures Hit(lower, p, s, i) <==> OccursAt(lower, p, s, i)
  {
    if i + |p| <= |s| {
      ReadsAlike(lower, s[i..i + |p|], p);
      if OccursAt(lower, p, s, i) {
        forall j | 0 <= j < |p| ensures lower(s[i..i + |p|][j]) == [p[j]] { assert Same(lower, s[i + j], p[j]); }
      }
      if Hit(lower, p, s, i) {
        forall j | 0 <= j < |p| ensures Same(lower, s[i + j], p[j]) { assert lower(s[i..i + |p|][j]) == [p[j]]; }
      }
    }
  }

  // No hit before character i.
  predicate NoHitBefore(lower: Lower, p: string, s: string, i: nat) {
    forall k: nat :: k < i ==> !Hit(lower, p, s, k)
  }

  // A pass copies the text up to the first hit, puts the replacement there and goes on behind it; without a
  // hit it copies the text.
  lemma {:induction false} PassByHits(lower: Lower, rule: Rule, s: string, i: nat)
    requires rule.pattern != [] && i <= |s| && NoHitBefore(lower, rule.pattern, s, i)
    ensures Hit(lower, rule.pattern, s, i) ==>
      Pass(lower, rule, s) == s[..i] + (rule.replacement + Pass(lower, rule, s[i + |rule.pattern|..]))
    ensures i == |s| ==> Pass(lower, rule, s) == s
    decreases |s|
  {
    var p := rule.pattern;
    hide Hit; hide OccursAt;
    HitIsOccurrence(lower, p, s, 0);
    HitIsOccurrence(lower, p, s, i);
    if i == 0 {
      if Hit(lower, p, s, 0) { HitFits(lower, p, s, 0); }
    } else {
      assert !Hit(lower, p, s, 0);
      forall k: nat | k <= i - 1 ensures Hit(lower, p, s[1..], k) <==> Hit(lower, p, s, k + 1) {
        HitFurther(lower, p, s, k + 1);
      }
      PassByHits(lower, rule, s[1..], i - 1);
      if Hit(lower, p, s, i) {
        HitFits(lower, p, s, i);
        assert s[1..][i - 1 + |p|..] == s[i + |p|..];
        assert s[..i] == [s[0]] + s[1..][..i - 1];
      } else {
        assert s == [s[0]] + s[1..];
      }
    }
  }

  lemma HitFits(lower: Lower, p: string, s: string, i: nat)
    requires Hit(lower, p, s, i)
    ensures i + |p| <= |s|
  {
  }

  lemma HitFurther(lower: Lower, p: string, s: string, i: nat)
    requires 0 < i <= |s|
    ensures Hit(lower, p, s[1..], i - 1) <==> Hit(lower, p, s, i)
  {
    if i + |p| <= |s| { assert s[1..][i - 1..i - 1 + |p|] == s[i..i + |p|]; }
  }

  // ---------- masks ----------

  function Stars(n: nat): string {
    if n == 0 then [] else ['*'] + Stars(n - 1)
  }

  // The rule made from a line without '=' (the word is not empty).
  function MaskFor(word: string): Rule {
    Rule(word, Stars(if |word| > 1 then |word| else 1))
  }

  predicate IsMask(rule: Rule) {
    rule.pattern != [] && rule == MaskFor(rule.pattern) && '*' !in rule.pattern
  }

  lemma {:induction false} AllStars(n: nat)
    ensures |Stars(n)| == n && forall i :: 0 <= i < n ==> Stars(n)[i] == '*'
  {
    if n > 0 { AllStars(n - 1); }
  }

  // Every position keeps its character or is masked.
  predicate Masked(s: string, t: string) {
    |t| == |s| && forall i :: 0 <= i < |s| ==> t[i] == s[i] || t[i] == '*'
  }

  lemma MaskedTrans(s: string, t: string, u: string)
    requires Masked(s, t) && Masked(t, u)
    ensures Masked(s, u)
  {
  }

  lemma {:induction false} PassMasks(lower: Lower, rule: Rule, s: string)
    requires IsMask(rule)
    ensures Masked(s, Pass(lower, rule, s))
    decreases |s|
  {
    if s != [] {
      if OccursAt(lower, rule.pattern, s, 0) {
        AllStars(|rule.pattern|);
        PassMasks(lower, rule, s[|rule.pattern|..]);
      } else {
        PassMasks(lower, rule, s[1..]);
      }
    }
  }

  // Character k lies in a hit.
  ghost predicate InHit(lower: Lower, p: string, s: string, k: nat) {
    exists i: nat :: i <= k < i + |p| && Hit(lower, p, s, i)
  }

  // A pass with a mask stars only what lies in a hit of the text it is given.
  lemma {:induction false} PassStarsHits(lower: Lower, rule: Rule, s: string, k: nat)
    requires IsMask(rule) && k < |s|
    ensures |Pass(lower, rule, s)| == |s|
    ensures Pass(lower, rule, s)[k] != s[k] ==> InHit(lower, rule.pattern, s, k)
    decreases |s|
  {
    var (p, t) := (rule.pattern, Pass(lower, rule, s));
    hide Hit; hide OccursAt;
    PassMasks(lower, rule, s);
    HitIsOccurrence(lower, p, s, 0);
    var d := if OccursAt(lower, p, s, 0) then |p| else 1;
    AllStars(|p|);
    if k < d {
      if OccursAt(lower, p, s, 0) { assert InHit(lower, p, s, k); }
    } else {
      if OccursAt(lower, p, s, 0) { HitFits(lower, p, s, 0); }
      assert t[d..] == Pass(lower, rule, s[d..]);
      PassStarsHits(lower, rule, s[d..], k - d);
      if t[k] != s[k] {
        assert t[d..][k - d] != s[d..][k - d];
        var i: nat :| i <= k - d < i + |p| && Hit(lower, p, s[d..], i);
        HitShift(lower, p, s, i, d);
        assert Hit(lower, p, s, i + d);
      }
    }
  }

  lemma HitShift(lower: Lower, p: string, s: string, i: nat, d: nat)
    requires d <= |s| && Hit(lower, p, s[d..], i)
    ensures Hit(lower, p, s, i + d)
  {
    assert s[d..][i..i + |p|] == s[i + d..i + d + |p|];
  }

  // Masking more of a text brings no new occurrence of a pattern without stars.
  lemma MaskingHides(lower: Lower, pattern: string, s: string, t: string, i: nat)
    requires lower('*') == "*" && '*' !in pattern && Masked(s, t)
    requires OccursAt(lower, pattern, t, i)
    ensures OccursAt(lower, pattern, s, i) && forall k :: i <= k < i + |pattern| ==> t[k] == s[k] && s[k] != '*'
  {
    forall k | i <= k < i + |pattern| ensures t[k] == s[k] && s[k] != '*' {
      var j := k - i;
      var p := pattern[j];
      assert Same(lower, t[i + j], p) && p in pattern;
    }
    forall j | 0 <= j < |pattern| ensures Same(lower, s[i + j], pattern[j]) {
      assert Same(lower, t[i + j], pattern[j]);
    }
  }

  lemma OccursFurther(lower: Lower, pattern: string, s: string, i: nat, d: nat)
    requires d <= i <= |s|
    ensures OccursAt(lower, pattern, s, i) <==> OccursAt(lower, pattern, s[d..], i - d)
  {
    if i + |pattern| <= |s| {
      forall j | 0 <= j < |pattern| ensures Same(lower, s[i + j], pattern[j]) <==>
        Same(lower, s[d..][i - d + j], pattern[j]) {
        assert s[d..][i - d + j] == s[i + j];
      }
    }
  }

  // Nothing the pass should have masked is left where it looked.
  lemma {:induction false} PassCompletes(lower: Lower, rule: Rule, s: string, i: nat)
    requires IsMask(rule) && lower('*') == "*" && i <= |s|
    ensures !OccursAt(lower, rule.pattern, Pass(lower, rule, s), i)
    decreases |s|
  {
    var (p, t) := (rule.pattern, Pass(lower, rule, s));
    PassMasks(lower, rule, s);
    if OccursAt(lower, p, t, i) {
      MaskingHides(lower, p, s, t, i);
      if OccursAt(lower, p, s, 0) {
        AllStars(|p|);
        assert t[..|p|] == rule.replacement;
        assert t[i] == s[i] && s[i] != '*';
        forall k | 0 <= k < |p| ensures t[k] == '*' {
          assert t[k] == t[..|p|][k];
        }
        if i >= |p| {
          assert t[|p|..] == Pass(lower, rule, s[|p|..]);
          PassCompletes(lower, rule, s[|p|..], i - |p|);
          OccursFurther(lower, p, t, i, |p|);
        }
      } else if i > 0 {
        assert t[1..] == Pass(lower, rule, s[1..]);
        PassCompletes(lower, rule, s[1..], i - 1);
        OccursFurther(lower, p, t, i, 1);
      }
    }
  }

  lemma {:induction false} PassWithoutOccurrence(lower: Lower, rule: Rule, s: string)
    requires !Occurs(lower, rule.pattern, s)
    ensures Pass(lower, rule, s) == s
    decreases |s|
  {
    if s != [] && rule.pattern != [] {
      assert !OccursAt(lower, rule.pattern, s, 0);
      forall i | 0 <= i <= |s[1..]| ensures !OccursAt(lower, rule.pattern, s[1..], i) {
        OccursFurther(lower, rule.pattern, s, i + 1, 1);
        assert !OccursAt(lower, rule.pattern, s, i + 1);
      }
      PassWithoutOccurrence(lower, rule, s[1..]);
    }
  }

  // ---------- main results ----------

  lemma {:induction false} FilterMasks(lower: Lower, rules: seq<Rule>, s: string)
    requires forall r :: r in rules ==> IsMask(r)
    ensures Masked(s, Filtered(lower, rules, s))
    decreases |rules|
  {
    if rules != [] {
      PassMasks(lower, rules[0], s);
      FilterMasks(lower, rules[1..], Pass(lower, rules[0], s));
      MaskedTrans(s, Pass(lower, rules[0], s), Filtered(lower, rules, s));
    }
  }

  // A filter of masks leaves no pattern in the text, in any case.
  lemma {:induction false} FilterCompletes(lower: Lower, rules: seq<Rule>, s: string, r: Rule)
    requires lower('*') == "*" && (forall q :: q in rules ==> IsMask(q)) && r in rules
    ensures !Occurs(lower, r.pattern, Filtered(lower, rules, s))
    ensures forall i: nat :: !Hit(lower, r.pattern, Filtered(lower, rules, s), i)
    decreases |rules|
  {
    var (t, u) := (Pass(lower, rules[0], s), Filtered(lower, rules, s));
    hide Hit;
    forall i: nat ensures Hit(lower, r.pattern, u, i) <==> OccursAt(lower, r.pattern, u, i) {
      HitIsOccurrence(lower, r.pattern, u, i);
    }
    if r == rules[0] {
      FilterMasks(lower, rules[1..], t);
      PassMasks(lower, r, s);
      forall i | 0 <= i <= |u| ensures !OccursAt(lower, r.pattern, u, i) {
        PassCompletes(lower, r, s, i);
        if OccursAt(lower, r.pattern, u, i) { MaskingHides(lower, r.pattern, t, u, i); }
      }
    } else {
      FilterCompletes(lower, rules[1..], t, r);
    }
  }

  // And it stars nothing but what lies in a hit of one of its patterns in the text as it came; while every
  // such hit loses a character.
  lemma {:induction false} FilterStarsHits(lower: Lower, rules: seq<Rule>, s: string, k: nat)
    requires lower('*') == "*" && (forall q :: q in rules ==> IsMask(q)) && k < |s|
    ensures |Filtered(lower, rules, s)| == |s|
    ensures Filtered(lower, rules, s)[k] != s[k] ==>
      Filtered(lower, rules, s)[k] == '*' && exists r :: r in rules && InHit(lower, r.pattern, s, k)
    decreases |rules|
  {
    FilterMasks(lower, rules, s);
    if rules != [] {
      hide Hit; hide InHit;
      var (t, u) := (Pass(lower, rules[0], s), Filtered(lower, rules, s));
      PassMasks(lower, rules[0], s);
      PassStarsHits(lower, rules[0], s, k);
      FilterStarsHits(lower, rules[1..], t, k);
      if u[k] != s[k] && t[k] == s[k] {
        var r :| r in rules[1..] && InHit(lower, r.pattern, t, k);
        HitBeforeMasking(lower, r.pattern, s, t, k);
        assert r in rules;
      } else if u[k] != s[k] {
        assert rules[0] in rules;
      }
    }
  }

  lemma HitBeforeMasking(lower: Lower, p: string, s: string, t: string, k: nat)
    requires lower('*') == "*" && '*' !in p && Masked(s, t) && InHit(lower, p, t, k)
    ensures InHit(lower, p, s, k)
  {
    hide Hit; hide OccursAt;
    var i: nat :| i <= k < i + |p| && Hit(lower, p, t, i);
    HitIsOccurrence(lower, p, t, i);
    HitIsOccurrence(lower, p, s, i);
    MaskingHides(lower, p, s, t, i);
  }

  lemma SameStretch(a: string, b: string, i: nat, n: nat)
    requires i <= n <= |a| && |a| == |b|
    ensures (forall k :: i <= k < n ==> a[k] == b[k]) ==> a[i..n] == b[i..n]
  {
    if forall k :: i <= k < n ==> a[k] == b[k] { assert a[i..n] == b[i..n]; }
  }

  lemma EveryHitIsMasked(lower: Lower, rules: seq<Rule>, s: string, r: Rule, i: nat)
    requires lower('*') == "*" && (forall q :: q in rules ==> IsMask(q)) && r in rules && Hit(lower, r.pattern, s, i)
    ensures |Filtered(lower, rules, s)| == |s|
    ensures exists k :: i <= k < i + |r.pattern| && Filtered(lower, rules, s)[k] == '*' && s[k] != '*'
  {
    var (u, p) := (Filtered(lower, rules, s), r.pattern);
    FilterMasks(lower, rules, s);
    FilterCompletes(lower, rules, s, r);
    assert !Hit(lower, p, u, i);
    SameStretch(u, s, i, i + |p|);
    var k :| i <= k < i + |p| && u[k] != s[k];
    assert u[k] == '*';
  }

  lemma {:induction false} FilterOfClean(lower: Lower, rules: seq<Rule>, s: string)
    requires forall r :: r in rules ==> !Occurs(lower, r.pattern, s)
    ensures Filtered(lower, rules, s) == s
    decreases |rules|
  {
    if rules != [] {
      PassWithoutOccurrence(lower, rules[0], s);
      FilterOfClean(lower, rules[1..], s);
    }
  }

  // Filtering again changes nothing.
  lemma FilterTwice(lower: Lower, rules: seq<Rule>, s: string)
    requires lower('*') == "*" && forall q :: q in rules ==> IsMask(q)
    ensures Filtered(lower, rules, Filtered(lower, rules, s)) == Filtered(lower, rules, s)
  {
    var u := Filtered(lower, rules, s);
    forall r | r in rules ensures !Occurs(lower, r.pattern, u) { FilterCompletes(lower, rules, s, r); }
    FilterOfClean(lower, rules, u);
  }

  // Both conditions matter: a replacement may contain its own pattern, and a mask may spell one.
  lemma WhyMasks(lower: Lower)
    requires lower('*') == "*" && lower('a') == "a" && lower('b') == "b"
    ensures Filtered(lower, [Rule("a", "aa")], "a") == "aa" && Occurs(lower, "a", "aa")
    ensures Filtered(lower, [MaskFor("a*"), MaskFor("b")], "ab") == "a*" && Occurs(lower, "a*", "a*")
  {
    assert OccursAt(lower, "a", "a", 0) && OccursAt(lower, "a", "aa", 0) && OccursAt(lower, "a*", "a*", 0);
    assert Pass(lower, Rule("a", "aa"), "a") == "aa" + Pass(lower, Rule("a", "aa"), []);
    assert Filtered(lower, [Rule("a", "aa")], "a") == Filtered(lower, [], "aa");
    var (r1, r2) := (MaskFor("a*"), MaskFor("b"));
    assert !Same(lower, "ab"[1], "a*"[1]);
    assert !OccursAt(lower, "a*", "ab", 0) && !OccursAt(lower, "a*", "b", 0);
    assert "ab"[1..] == "b" && "b"[1..] == [];
    assert Pass(lower, r1, "b") == ['b'] + Pass(lower, r1, []);
    assert Pass(lower, r1, "ab") == ['a'] + Pass(lower, r1, "b") == "ab";
    assert OccursAt(lower, "b", "b", 0) && !OccursAt(lower, "b", "ab", 0) by { assert !Same(lower, "ab"[0], "b"[0]); }
    assert Stars(1) == "*" + Stars(0);
    assert Pass(lower, r2, "b") == "*" + Pass(lower, r2, []);
    assert Pass(lower, r2, "ab") == ['a'] + Pass(lower, r2, "b") == "a*";
    assert [r1, r2][1..] == [r2] && [r2][1..] == [];
    assert Filtered(lower, [r1, r2], "ab") == Filtered(lower, [r2], "ab") == Filtered(lower, [], "a*");
  }

  // ---------- bytes and characters ----------

  // How many bytes a character takes in UTF-8.
  function Width(c: char): nat {
    if c < 0x80 as char then 1 else if c < 0x800 as char then 2 else if c as int < 0x1_0000 then 3 else 4
  }

  // The byte at which character i begins.
  function Offset(s: string, i: nat): nat
    requires i <= |s|
  {
    if i == 0 then 0 else Offset(s, i - 1) + Width(s[i - 1])
  }

  // A byte position at which some character begins or the text ends.
  predicate Boundary(s: string, b: nat) {
    exists i :: 0 <= i <= |s| && Offset(s, i) == b
  }

  lemma {:induction false} OffsetsGrow(s: string, i: nat, j: nat)
    requires i < j <= |s|
    ensures Offset(s, i) < Offset(s, j)
  {
    if i + 1 < j { OffsetsGrow(s, i, j - 1); }
  }

  ghost function IndexAt(s: string, b: nat): nat
    requires Boundary(s, b)
    ensures IndexAt(s, b) <= |s| && Offset(s, IndexAt(s, b)) == b
  {
    var i :| 0 <= i <= |s| && Offset(s, i) == b;
    i
  }

  lemma IndexOfOffset(s: string, i: nat)
    requires i <= |s|
    ensures Boundary(s, Offset(s, i)) && IndexAt(s, Offset(s, i)) == i
  {
    var k := IndexAt(s, Offset(s, i));
    if k < i { OffsetsGrow(s, k, i); } else if i < k { OffsetsGrow(s, i, k); }
  }

  // &s[a..b] on byte positions. The indexing is sound only on boundaries.
  method Slice(s: string, a: nat, b: nat) returns (part: string)
    requires Boundary(s, a) && Boundary(s, b) && a <= b
    ensures IndexAt(s, a) <= IndexAt(s, b) && part == s[IndexAt(s, a)..IndexAt(s, b)]
  {
    var i, at := 0, 0;
    while at < a
      invariant i <= IndexAt(s, a) && at == Offset(s, i) <= a
    {
      StillBefore(s, i, IndexAt(s, a));
      at := at + Width(s[i]);
      i := i + 1;
    }
    IndexOfOffset(s, i);
    InOrder(s, a, b);
    var j := i;
    while at < b
      invariant i <= j <= IndexAt(s, b) && at == Offset(s, j) <= b
    {
      StillBefore(s, j, IndexAt(s, b));
      at := at + Width(s[j]);
      j := j + 1;
    }
    IndexOfOffset(s, j);
    part := s[i..j];
  }

  lemma StillBefore(s: string, i: nat, k: nat)
    requires i <= k <= |s| && Offset(s, i) < Offset(s, k)
    ensures i < k && Offset(s, i + 1) <= Offset(s, k)
  {
    if i + 1 < k { OffsetsGrow(s, i + 1, k); }
  }

  lemma InOrder(s: string, a: nat, b: nat)
    requires Boundary(s, a) && Boundary(s, b) && a <= b
    ensures IndexAt(s, a) <= IndexAt(s, b)
  {
    if IndexAt(s, b) < IndexAt(s, a) { OffsetsGrow(s, IndexAt(s, b), IndexAt(s, a)); }
  }

  // ---------- the code ----------

  lemma NextOffset(s: string, i: nat)
    requires i <= |s|
    ensures i < |s| ==> Offset(s, i + 1) == Offset(s, i) + Width(s[i])
    ensures i == 0 ==> Offset(s, i) == 0
  {
  }

  // A character and the byte at which it begins.
  datatype Indexed = Indexed(at: nat, c: char)

  method CharIndices(s: string) returns (list: seq<Indexed>)
    ensures |list| == |s| && forall i :: 0 <= i < |s| ==> list[i] == Indexed(Offset(s, i), s[i])
  {
    hide Offset;
    list := [];
    NextOffset(s, 0);
    var i, at := 0, 0;
    while i < |s|
      invariant i == |list| <= |s| && at == Offset(s, i)
      invariant forall k :: 0 <= k < i ==> list[k] == Indexed(Offset(s, k), s[k])
    {
      NextOffset(s, i);
      list := list + [Indexed(at, s[i])];
      at := at + Width(s[i]);
      i := i + 1;
    }
  }

  method MatchesAt(lower: Lower, pattern: string, s: string, list: seq<Indexed>, i: nat) returns (yes: bool)
    requires |list| == |s| && (forall k :: 0 <= k < |s| ==> list[k] == Indexed(Offset(s, k), s[k])) &&
      i + |pattern| <= |s|
    ensures yes == OccursAt(lower, pattern, s, i)
  {
    yes := true;
    var j := 0;
    while j < |pattern|
      invariant j <= |pattern| && yes
      invariant forall k :: 0 <= k < j ==> Same(lower, s[i + k], pattern[k])
    {
      var c := lower(list[i + j].c);
      if c != [pattern[j]] {
        assert !Same(lower, s[i + j], pattern[j]);
        return false;
      }
      j := j + 1;
    }
  }

  // One rule over the whole text.
  method ApplyRule(lower: Lower, rule: Rule, current: string) returns (newText: string)
    requires rule.pattern != []
    ensures newText == Pass(lower, rule, current)
  {
    hide Offset; hide Boundary; hide IndexAt; hide Pass; hide OccursAt; hide Width;
    var list := CharIndices(current);
    NextOffset(current, 0);
    var total, len := |list|, |rule.pattern|;
    newText := [];
    var lastEnd, i := 0, 0;
    ghost var from: nat := 0;                          // the character at which lastEnd falls
    assert [] + (current[0..0] + Pass(lower, rule, current[0..])) == Pass(lower, rule, current) by {
      assert current[0..] == current;
    }
    while i < total
      invariant from <= i <= total && lastEnd == Offset(current, from)
      invariant newText + (current[from..i] + Pass(lower, rule, current[i..])) == Pass(lower, rule, current)
    {
      var matches := false;
      if i + len <= total { matches := MatchesAt(lower, rule.pattern, current, list, i); }
      Shifted(lower, rule.pattern, current, i);
      if matches {
        var part := Between(current, from, i, lastEnd, list[i].at);
        MatchedStep(lower, rule, current, newText, from, i);
        newText := newText + part + rule.replacement;
        lastEnd := if i + len < total then list[i + len].at else Offset(current, total);
        i := i + len;
        from := i;
      } else {
        SkippedStep(lower, rule, current, newText, from, i);
        i := i + 1;
      }
    }
    var part := Between(current, from, total, lastEnd, Offset(current, total));
    NothingMore(lower, rule, current, from);
    newText := newText + part;
  }

  lemma Shifted(lower: Lower, pattern: string, s: string, i: nat)
    requires i <= |s|
    ensures OccursAt(lower, pattern, s[i..], 0) <==> OccursAt(lower, pattern, s, i)
    ensures OccursAt(lower, pattern, s, i) ==> i + |pattern| <= |s|
  {
    OccursFurther(lower, pattern, s, i, i);
  }

  lemma NothingMore(lower: Lower, rule: Rule, s: string, from: nat)
    requires from <= |s|
    ensures s[from..|s|] + Pass(lower, rule, s[|s|..]) == s[from..|s|]
  {
  }

  // The text between two characters, cut by their byte positions.
  method Between(s: string, ghost i: nat, ghost j: nat, a: nat, b: nat) returns (part: string)
    requires i <= j <= |s| && a == Offset(s, i) && b == Offset(s, j)
    ensures part == s[i..j]
  {
    IndexOfOffset(s, i);
    IndexOfOffset(s, j);
    if i < j { OffsetsGrow(s, i, j); }
    part := Slice(s, a, b);
  }

  lemma MatchedStep(lower: Lower, rule: Rule, s: string, text: string, from: nat, i: nat)
    requires rule.pattern != [] && from <= i < |s| && OccursAt(lower, rule.pattern, s[i..], 0)
    ensures var next := i + |rule.pattern|;
      && next <= |s|
      && text + (s[from..i] + Pass(lower, rule, s[i..])) ==
         (text + s[from..i] + rule.replacement) + (s[next..next] + Pass(lower, rule, s[next..]))
  {
    var next := i + |rule.pattern|;
    assert s[i..][|rule.pattern|..] == s[next..];
    assert s[next..next] == [];
  }

  lemma SkippedStep(lower: Lower, rule: Rule, s: string, text: string, from: nat, i: nat)
    requires rule.pattern != [] && from <= i < |s| && !OccursAt(lower, rule.pattern, s[i..], 0)
    ensures text + (s[from..i] + Pass(lower, rule, s[i..])) == text + (s[from..i + 1] + Pass(lower, rule, s[i + 1..]))
  {
    assert s[i..][1..] == s[i + 1..];
    assert s[from..i + 1] == s[from..i] + [s[i]];
  }

  // ChatFilter::filter
  method FilterText(lower: Lower, rules: seq<Rule>, text: string) returns (current: string)
    ensures current == Filtered(lower, rules, text)
  {
    current := text;
    if rules == [] || text == [] {
      if text == [] { NothingToFilter(lower, rules); }
      return;
    }
    var k := 0;
    while k < |rules|
      invariant k <= |rules| && Filtered(lower, rules[k..], current) == Filtered(lower, rules, text)
    {
      assert rules[k..][1..] == rules[k + 1..];
      if rules[k].pattern != [] {
        current := ApplyRule(lower, rules[k], current);
      }
      k := k + 1;
    }
  }

  lemma {:induction false} NothingToFilter(lower: Lower, rules: seq<Rule>)
    ensures Filtered(lower, rules, []) == []
    decreases |rules|
  {
    if rules != [] { NothingToFilter(lower, rules[1..]); }
  }
}
