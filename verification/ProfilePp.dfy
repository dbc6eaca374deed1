/** Profile performance points: the best score of each map, the hundred best of those, their weighted
    sum and bonus (src/utils/score_calc.rs), as saving a score stores them (src/db/scores.rs). Real
    arithmetic stands for f64. */
module ProfilePp {
  import opened Wrappers
  import opened BanchoTypes

  // ---------- scores and stats rows ----------

  datatype Score = Score(mapMd5: bytes, mode: u8, relax: bool, score: int, pp: real, accuracy: real)

  // The stats row a score counts for. Relax has rows of its own only in the first three modes.
  function StatsMode(mode: u8, relax: bool): u8 {
    if relax && mode <= 2 then mode + 4 else mode
  }

  // The scores the selection looks at: those of one mode, with or without relax.
  function Selected(scores: seq<Score>, mode: u8, relax: bool): seq<Score> {
    if scores == [] then [] else
    var (front, s) := (scores[..|scores| - 1], scores[|scores| - 1]);
    if s.mode == mode && s.relax == relax then Selected(front, mode, relax) + [s] else Selected(front, mode, relax)
  }

  // ---------- the best of each map ----------

  datatype Entry = Entry(mapMd5: bytes, pp: real)

  function Max(a: real, b: real): real {
    if a < b then b else a
  }

  function AddBest(list: seq<Entry>, mapMd5: bytes, pp: real): seq<Entry> {
    if list == [] then [Entry(mapMd5, pp)]
    else if list[0].mapMd5 == mapMd5 then [Entry(mapMd5, Max(list[0].pp, pp))] + list[1..]
    else [list[0]] + AddBest(list[1..], mapMd5, pp)
  }

  function Bests(scores: seq<Score>): seq<Entry> {
    if scores == [] then [] else
    var s := scores[|scores| - 1];
    AddBest(Bests(scores[..|scores| - 1]), s.mapMd5, s.pp)
  }

  // The entry of a map, if it has one.
  function Find(list: seq<Entry>, mapMd5: bytes): Option<real> {
    if list == [] then None
    else if list[0].mapMd5 == mapMd5 then Some(list[0].pp)
    else Find(list[1..], mapMd5)
  }

  predicate OneEntryEach(list: seq<Entry>) {
    list == [] || (Find(list[1..], list[0].mapMd5).None? && OneEntryEach(list[1..]))
  }

  // best is one of the map's scores and no less than any, or there is no score of the map.
  ghost predicate IsBest(best: Option<real>, scores: seq<Score>, mapMd5: bytes) {
    match best
    case None => forall s :: s in scores ==> s.mapMd5 != mapMd5
    case Some(x) =>
      && (exists s :: s in scores && s.mapMd5 == mapMd5 && s.pp == x)
      && (forall s :: s in scores && s.mapMd5 == mapMd5 ==> s.pp <= x)
  }

  lemma {:induction false} AddBestFinds(list: seq<Entry>, mapMd5: bytes, pp: real, k: bytes)
    ensures Find(AddBest(list, mapMd5, pp), k) ==
      if k != mapMd5 then Find(list, k)
      else Some(if Find(list, k).Some? then Max(Find(list, k).value, pp) else pp)
  {
    if list != [] && list[0].mapMd5 != mapMd5 { AddBestFinds(list[1..], mapMd5, pp, k); }
  }

  lemma {:induction false} AddBestOnce(list: seq<Entry>, mapMd5: bytes, pp: real)
    requires OneEntryEach(list)
    ensures OneEntryEach(AddBest(list, mapMd5, pp))
  {
    if list != [] {
      var after := AddBest(list, mapMd5, pp);
      if list[0].mapMd5 == mapMd5 {
        assert after[1..] == list[1..];
      } else {
        AddBestOnce(list[1..], mapMd5, pp);
        AddBestFinds(list[1..], mapMd5, pp, list[0].mapMd5);
        assert after[1..] == AddBest(list[1..], mapMd5, pp);
      }
    }
  }

  lemma BestOfOneMore(best: Option<real>, front: seq<Score>, s: Score, mapMd5: bytes)
    requires IsBest(best, front, mapMd5)
    ensures IsBest(if mapMd5 != s.mapMd5 then best
      else Some(if best.Some? then Max(best.value, s.pp) else s.pp), front + [s], mapMd5)
  {
    assert s in front + [s];
    if best.Some? {
      var t :| t in front && t.mapMd5 == mapMd5 && t.pp == best.value;
      assert t in front + [s];
    }
  }

  // Exactly one entry for each map with a score, and it is the best of the map.
  lemma {:induction false} BestsAreBest(scores: seq<Score>, mapMd5: bytes)
    ensures OneEntryEach(Bests(scores)) && IsBest(Find(Bests(scores), mapMd5), scores, mapMd5)
  {
    hide IsBest; hide OneEntryEach; hide AddBest; hide Find;
    if scores == [] {
      NoBests(mapMd5);
    } else {
      var (front, s) := (scores[..|scores| - 1], scores[|scores| - 1]);
      BestsAreBest(front, mapMd5);
      AddBestOnce(Bests(front), s.mapMd5, s.pp);
      AddBestFinds(Bests(front), s.mapMd5, s.pp, mapMd5);
      BestOfOneMore(Find(Bests(front), mapMd5), front, s, mapMd5);
      assert scores == front + [s];
    }
  }

  lemma NoBests(mapMd5: bytes)
    ensures OneEntryEach([]) && IsBest(Find([], mapMd5), [], mapMd5)
  {
  }

  // ---------- ranking ----------

  function Pps(list: seq<Entry>): (pps: seq<real>)
    ensures |pps| == |list| && forall i :: 0 <= i < |list| ==> pps[i] == list[i].pp
  {
    if list == [] then [] else [list[0].pp] + Pps(list[1..])
  }

  function Insert(t: seq<real>, x: real): seq<real> {
    if t == [] || x >= t[0] then [x] + t else [t[0]] + Insert(t[1..], x)
  }

  function SortDesc(s: seq<real>): seq<real> {
    if s == [] then [] else Insert(SortDesc(s[1..]), s[0])
  }

  predicate Descending(t: seq<real>) {
    forall i, j :: 0 <= i < j < |t| ==> t[i] >= t[j]
  }

  lemma {:induction false} InsertKeeps(t: seq<real>, x: real)
    ensures multiset(Insert(t, x)) == multiset(t) + multiset{x}
  {
    if t != [] && x < t[0] {
      InsertKeeps(t[1..], x);
      assert t == [t[0]] + t[1..];
    }
  }

  lemma {:induction false} InsertSorts(t: seq<real>, x: real)
    requires Descending(t)
    ensures Descending(Insert(t, x)) && multiset(Insert(t, x)) == multiset(t) + multiset{x}
  {
    InsertKeeps(t, x);
    if t != [] && x < t[0] {
      InsertSorts(t[1..], x);
      var rest := Insert(t[1..], x);
      forall j | 0 <= j < |rest| ensures t[0] >= rest[j] {
        NoneAbove(t, x, rest, j);
      }
    }
  }

  lemma NoneAbove(t: seq<real>, x: real, rest: seq<real>, j: nat)
    requires Descending(t) && t != [] && x <= t[0] && j < |rest|
    requires multiset(rest) == multiset(t[1..]) + multiset{x}
    ensures rest[j] <= t[0]
  {
    var y := rest[j];
    assert y in multiset(rest);
    assert y == x || y in t[1..];
  }

  lemma {:induction false} SortSorts(s: seq<real>)
    ensures Descending(SortDesc(s)) && multiset(SortDesc(s)) == multiset(s)
  {
    if s != [] {
      SortSorts(s[1..]);
      InsertSorts(SortDesc(s[1..]), s[0]);
      assert s == [s[0]] + s[1..];
    }
  }

  function Top(t: seq<real>): seq<real> {
    if |t| <= 100 then t else t[..100]
  }

  // ---------- weighting ----------

  function Weighted(pps: seq<real>, weight: real): real {
    if pps == [] then 0.0 else pps[0] * weight + Weighted(pps[1..], weight * 0.95)
  }

  function RealPow(x: real, n: nat): real {
    if n == 0 then 1.0 else x * RealPow(x, n - 1)
  }

  function Bonus(n: nat): real {
    416.6667 * (1.0 - RealPow(0.9994, n))
  }

  function ProfileOf(pps: seq<real>): real {
    Weighted(pps, 1.0) + Bonus(|pps|)
  }

  // Half away from zero, as f64::round.
  function Round(x: real): int {
    if x >= 0.0 then (x + 0.5).Floor else -((-x + 0.5).Floor)
  }

  // What the stats row stores.
  function Stored(x: real): int {
    var n := Round(x);
    if n < 0 then 0 else if n > 32767 then 32767 else n
  }

  function TopPps(scores: seq<Score>, mode: u8, relax: bool): seq<real> {
    Top(SortDesc(Pps(Bests(Selected(scores, mode, relax)))))
  }

  function Pp(scores: seq<Score>, mode: u8, relax: bool): real {
    ProfileOf(TopPps(scores, mode, relax))
  }

  // ---------- what the total is ----------

  // The i-th of the first n values weighs 0.95 to the power i.
  function RankedSum(pps: seq<real>, n: nat): real
    requires n <= |pps|
  {
    if n == 0 then 0.0 else RankedSum(pps, n - 1) + pps[n - 1] * RealPow(0.95, n - 1)
  }

  lemma NextRank(pps: seq<real>, i: nat)
    requires i < |pps|
    ensures RankedSum(pps, i + 1) == RankedSum(pps, i) + pps[i] * RealPow(0.95, i)
  {
  }

  lemma NextWeight(pps: seq<real>, i: nat, w: real)
    requires i < |pps|
    ensures Weighted(pps[i..], w) == pps[i] * w + Weighted(pps[i + 1..], w * 0.95)
  {
    assert pps[i..][1..] == pps[i + 1..];
  }

  lemma NextPower(i: nat)
    ensures RealPow(0.95, i + 1) == RealPow(0.95, i) * 0.95
  {
  }

  lemma {:induction false} RestOfSum(pps: seq<real>, i: nat)
    requires i <= |pps|
    ensures RankedSum(pps, i) + Weighted(pps[i..], RealPow(0.95, i)) == RankedSum(pps, |pps|)
    decreases |pps| - i
  {
    if i == |pps| {
      assert Weighted(pps[i..], RealPow(0.95, i)) == 0.0;
    } else {
      hide RankedSum; hide Weighted; hide RealPow;
      RestOfSum(pps, i + 1);
      NextPower(i);
      NextRank(pps, i);
      NextWeight(pps, i, RealPow(0.95, i));
    }
  }

  // sum(pp_i * 0.95^i) and the bonus for n plays.
  lemma ProfileFormula(pps: seq<real>)
    ensures ProfileOf(pps) == RankedSum(pps, |pps|) + 416.6667 * (1.0 - RealPow(0.9994, |pps|))
  {
    RestOfSum(pps, 0);
    assert pps[0..] == pps;
  }

  // The values that count: the best of each map, ranked, and of these the first hundred.
  lemma HundredBest(scores: seq<Score>, mode: u8, relax: bool)
    ensures var (bests, top) := (Pps(Bests(Selected(scores, mode, relax))), TopPps(scores, mode, relax));
      exists ranking: seq<real> :: Descending(ranking) && multiset(ranking) == multiset(bests) &&
        |top| == (if |bests| < 100 then |bests| else 100) && top <= ranking
  {
    var bests := Pps(Bests(Selected(scores, mode, relax)));
    SortSorts(bests);
    assert |SortDesc(bests)| == |multiset(SortDesc(bests))| == |multiset(bests)| == |bests|;
  }

  // A stats row stores the nearest whole number, within 0 and 32767.
  lemma StoredIsNearest(x: real)
    ensures x < 0.0 ==> Stored(x) == 0
    ensures x > 32767.0 ==> Stored(x) == 32767
    ensures 0.0 <= x <= 32767.0 ==> -0.5 <= Stored(x) as real - x <= 0.5
  {
  }

  // Among the modes clients submit, relax has rows of its own, 4 to 6, but for mania.
  lemma RowsApart(mode: u8, relax: bool, mode': u8, relax': bool)
    requires mode <= 3 && mode' <= 3
    ensures StatsMode(mode, relax) == StatsMode(mode', relax') <==> mode == mode' && (relax == relax' || mode == 3)
    ensures !relax ==> StatsMode(mode, relax) == mode
    ensures relax && mode != 3 ==> 4 <= StatsMode(mode, relax) <= 6
  {
  }

  // The weights of n values add up to 20 * (1 - 0.95^n).
  lemma {:induction false} WeightsTotal(n: nat, weight: real)
    ensures Weights(n, weight) == 20.0 * weight * (1.0 - RealPow(0.95, n))
  {
    if n > 0 {
      WeightsTotal(n - 1, weight * 0.95);
      Geometric(weight, RealPow(0.95, n - 1));
    }
  }

  lemma Geometric(w: real, p: real)
    ensures w + 20.0 * (w * 0.95) * (1.0 - p) == 20.0 * w * (1.0 - 0.95 * p)
  {
  }

  // ---------- domination ----------

  // At least as long, and at least as good at every rank.
  predicate Dominates(a: seq<real>, b: seq<real>) {
    |a| >= |b| && forall i :: 0 <= i < |b| ==> a[i] >= b[i]
  }

  lemma DominatesCons(x: real, a: seq<real>, y: real, b: seq<real>)
    requires x >= y && Dominates(a, b)
    ensures Dominates([x] + a, [y] + b)
  {
  }

  // Pushing in a smaller value moves every rank down.
  lemma {:induction false} InsertBelow(t: seq<real>, x: real)
    requires Descending(t) && t != [] && x <= t[0]
    ensures Dominates(t, Insert(t[1..], x))
  {
    var rest := t[1..];
    if rest != [] && x < rest[0] {
      InsertBelow(rest, x);
      DominatesCons(t[0], rest, rest[0], Insert(rest[1..], x));
      assert t == [t[0]] + rest;
    } else {
      assert Insert(rest, x) == [x] + rest;
    }
  }

  lemma FirstStaysFirst(t: seq<real>)
    requires Descending(t) && t != []
    ensures Insert(t[1..], t[0]) == t
  {
  }

  // Better values in a better list rank better.
  lemma {:induction false} InsertDominates(a: seq<real>, x: real, b: seq<real>, y: real)
    requires Descending(a) && Descending(b) && Dominates(a, b) && x >= y
    ensures Dominates(Insert(a, x), Insert(b, y))
    decreases |a| + |b|
  {
    if a == [] || x >= a[0] {
      if b != [] && y < b[0] {
        InsertBelow(b, y);
        DominatesCons(x, a, b[0], Insert(b[1..], y));
      }
    } else if b == [] || y >= b[0] {
      if b == [] {
        assert Insert(b, y) == [y];
      } else {
        InsertDominates(a[1..], x, b[1..], b[0]);
        FirstStaysFirst(b);
        DominatesCons(a[0], Insert(a[1..], x), y, b);
      }
    } else {
      InsertDominates(a[1..], x, b[1..], y);
      DominatesCons(a[0], Insert(a[1..], x), b[0], Insert(b[1..], y));
    }
  }

  // One more score improves the whole ranking.
  lemma {:induction false} AddBestDominates(list: seq<Entry>, mapMd5: bytes, pp: real)
    ensures Dominates(SortDesc(Pps(AddBest(list, mapMd5, pp))), SortDesc(Pps(list)))
  {
    if list != [] {
      var after := AddBest(list, mapMd5, pp);
      SortSorts(Pps(list[1..]));
      SortSorts(Pps(after[1..]));
      assert Pps(list)[1..] == Pps(list[1..]) && Pps(after)[1..] == Pps(after[1..]);
      if list[0].mapMd5 == mapMd5 {
        assert after[1..] == list[1..];
        InsertDominates(SortDesc(Pps(list[1..])), Max(list[0].pp, pp), SortDesc(Pps(list[1..])), list[0].pp);
      } else {
        assert after[1..] == AddBest(list[1..], mapMd5, pp);
        AddBestDominates(list[1..], mapMd5, pp);
        InsertDominates(SortDesc(Pps(after[1..])), list[0].pp, SortDesc(Pps(list[1..])), list[0].pp);
      }
    }
  }

  // ---------- a better ranking is worth more ----------

  predicate NonNegative(t: seq<real>) {
    forall i :: 0 <= i < |t| ==> t[i] >= 0.0
  }

  lemma {:induction false} WeightedGrows(a: seq<real>, b: seq<real>, weight: real)
    requires Dominates(a, b) && NonNegative(a) && weight >= 0.0
    ensures Weighted(a, weight) >= Weighted(b, weight)
    decreases |a|
  {
    if a != [] {
      if b != [] {
        WeightedGrows(a[1..], b[1..], weight * 0.95);
        assert (a[0] - b[0]) * weight >= 0.0;
      } else {
        WeightedGrows(a[1..], [], weight * 0.95);
        assert a[0] * weight >= 0.0;
      }
    }
  }

  lemma {:induction false} BonusGrows(n: nat, m: nat)
    requires n >= m
    ensures 0.0 < RealPow(0.9994, n) <= RealPow(0.9994, m) && Bonus(n) >= Bonus(m)
  {
    if m > 0 { BonusGrows(n - 1, m - 1); }
    else if n > 0 { BonusGrows(n - 1, 0); }
  }

  lemma ProfileGrows(a: seq<real>, b: seq<real>)
    requires Dominates(a, b) && NonNegative(a)
    ensures ProfileOf(Top(a)) >= ProfileOf(Top(b))
  {
    WeightedGrows(Top(a), Top(b), 1.0);
    BonusGrows(|Top(a)|, |Top(b)|);
  }

  lemma StoredGrows(x: real, y: real)
    requires x >= y
    ensures Stored(x) >= Stored(y) && 0 <= Stored(x) <= 32767
  {
  }

  lemma {:induction false} AddBestNonNegative(list: seq<Entry>, mapMd5: bytes, pp: real)
    requires pp >= 0.0 && NonNegative(Pps(list))
    ensures NonNegative(Pps(AddBest(list, mapMd5, pp)))
  {
    if list != [] && list[0].mapMd5 != mapMd5 {
      assert Pps(list[1..]) == Pps(list)[1..];
      AddBestNonNegative(list[1..], mapMd5, pp);
    }
  }

  lemma {:induction false} BestsNonNegative(scores: seq<Score>)
    requires forall s :: s in scores ==> s.pp >= 0.0
    ensures NonNegative(Pps(Bests(scores)))
  {
    hide AddBest; hide NonNegative;
    if scores == [] {
      NothingNegative();
    } else {
      BestsNonNegative(scores[..|scores| - 1]);
      AddBestNonNegative(Bests(scores[..|scores| - 1]), scores[|scores| - 1].mapMd5, scores[|scores| - 1].pp);
    }
  }

  lemma NothingNegative()
    ensures NonNegative(Pps([]))
  {
  }

  lemma {:induction false} SelectedFrom(scores: seq<Score>, mode: u8, relax: bool)
    ensures forall s :: s in Selected(scores, mode, relax) <==> s in scores && s.mode == mode && s.relax == relax
  {
    if scores != [] {
      SelectedFrom(scores[..|scores| - 1], mode, relax);
      assert scores == scores[..|scores| - 1] + [scores[|scores| - 1]];
    }
  }

  lemma RankingNonNegative(scores: seq<Score>)
    requires forall s :: s in scores ==> s.pp >= 0.0
    ensures NonNegative(SortDesc(Pps(Bests(scores))))
  {
    var pps := Pps(Bests(scores));
    BestsNonNegative(scores);
    SortSorts(pps);
    forall i | 0 <= i < |SortDesc(pps)| ensures SortDesc(pps)[i] >= 0.0 {
      assert SortDesc(pps)[i] in multiset(pps);
    }
  }

  // One more non-negative score of the same mode never lowers the profile, exactly or as stored.
  lemma SavingNeverLowers(scores: seq<Score>, s: Score)
    requires forall t :: t in scores + [s] ==> t.pp >= 0.0
    ensures Pp(scores + [s], s.mode, s.relax) >= Pp(scores, s.mode, s.relax)
    ensures Stored(Pp(scores + [s], s.mode, s.relax)) >= Stored(Pp(scores, s.mode, s.relax))
  {
    hide Stored; hide ProfileOf; hide Top; hide SortDesc; hide Pps; hide AddBest;
    var (before, after) := (Selected(scores, s.mode, s.relax), Selected(scores + [s], s.mode, s.relax));
    assert (scores + [s])[..|scores|] == scores;
    assert after == before + [s];
    assert after[..|before|] == before;
    AddBestDominates(Bests(before), s.mapMd5, s.pp);
    SelectedFrom(scores + [s], s.mode, s.relax);
    RankingNonNegative(after);
    ProfileGrows(SortDesc(Pps(Bests(after))), SortDesc(Pps(Bests(before))));
    StoredGrows(Pp(scores + [s], s.mode, s.relax), Pp(scores, s.mode, s.relax));
  }

  // ---------- the stats rows ----------

  // The pp a row holds after these saves: what its last save computed.
  function RowPp(scores: seq<Score>, row: u8): int {
    if scores == [] then 0 else
    var s := scores[|scores| - 1];
    if StatsMode(s.mode, s.relax) == row then Stored(Pp(scores, s.mode, s.relax))
      else RowPp(scores[..|scores| - 1], row)
  }

  // Every save to the row was of this mode, with or without relax alike.
  predicate OneKind(scores: seq<Score>, mode: u8, relax: bool) {
    forall s :: s in scores && StatsMode(s.mode, s.relax) == StatsMode(mode, relax) ==>
      s.mode == mode && s.relax == relax
  }

  lemma {:induction false} RowOfOneKind(scores: seq<Score>, mode: u8, relax: bool)
    requires OneKind(scores, mode, relax)
    ensures RowPp(scores, StatsMode(mode, relax)) == Stored(Pp(scores, mode, relax))
  {
    hide Stored; hide SortDesc; hide Pps; hide AddBest; hide Top; hide ProfileOf;
    if scores == [] {
      NothingSaved(mode, relax);
    } else {
      var (front, s) := (scores[..|scores| - 1], scores[|scores| - 1]);
      assert scores == front + [s];
      if StatsMode(s.mode, s.relax) != StatsMode(mode, relax) { RowOfOneKind(front, mode, relax); }
    }
  }

  lemma NothingSaved(mode: u8, relax: bool)
    ensures Stored(Pp([], mode, relax)) == 0
  {
  }

  // Where a row belongs to one kind of score, saving never lowers it.
  lemma RowNeverFalls(scores: seq<Score>, s: Score)
    requires forall t :: t in scores + [s] ==> t.pp >= 0.0
    requires OneKind(scores, s.mode, s.relax)
    ensures RowPp(scores + [s], StatsMode(s.mode, s.relax)) >= RowPp(scores, StatsMode(s.mode, s.relax))
  {
    hide Stored; hide Pp;
    RowOfOneKind(scores, s.mode, s.relax);
    SavingNeverLowers(scores, s);
  }

  // The modes clients may submit.
  predicate RealScores(scores: seq<Score>) {
    forall s :: s in scores ==> s.mode <= 3 && s.pp >= 0.0
  }

  ghost predicate NeverFalls(mode: u8) {
    forall scores: seq<Score>, s: Score :: RealScores(scores + [s]) && s.mode == mode ==>
      RowPp(scores + [s], StatsMode(s.mode, s.relax)) >= RowPp(scores, StatsMode(s.mode, s.relax))
  }

  // Mania with relax is kept in the row of mania without: a relax score replaces the row by the total
  // of the relax scores alone. In every other mode no save lowers its row.
  lemma NeverFallsIff(mode: u8)
    requires mode <= 3
    ensures NeverFalls(mode) <==> mode != 3
  {
    hide RowPp;
    if mode != 3 {
      forall scores: seq<Score>, s: Score | RealScores(scores + [s]) && s.mode == mode
        ensures RowPp(scores + [s], StatsMode(s.mode, s.relax)) >= RowPp(scores, StatsMode(s.mode, s.relax))
      {
        assert forall t :: t in scores ==> t in scores + [s];
        RowNeverFalls(scores, s);
      }
    } else {
      ManiaFalls();
      var (plain, relaxed) := (Score([], 3, false, 0, 1000.0, 0.0), Score([], 3, true, 0, 0.0, 0.0));
      assert RealScores([plain] + [relaxed]);
      assert RowPp([plain] + [relaxed], StatsMode(3, true)) < RowPp([plain], StatsMode(3, true));
    }
  }

  lemma ManiaFalls()
    ensures var (plain, relaxed) := (Score([], 3, false, 0, 1000.0, 0.0), Score([], 3, true, 0, 0.0, 0.0));
      RowPp([plain], 3) == 1000 && RowPp([plain] + [relaxed], 3) == 0
  {
    hide Round;
    var (plain, relaxed) := (Score([], 3, false, 0, 1000.0, 0.0), Score([], 3, true, 0, 0.0, 0.0));
    OneScore([], plain);
    OneScore([plain], relaxed);
    assert ([plain] + [relaxed])[..1] == [plain];
    assert [] + [plain] == [plain];
    RoundsTo(1000.25000002, 1000);
    RoundsTo(0.25000002, 0);
  }

  lemma RoundsTo(x: real, n: nat)
    requires n as real <= x < n as real + 0.5
    ensures Round(x) == n
  {
  }

  // The total of a single score.
  lemma OneScore(scores: seq<Score>, s: Score)
    requires Selected(scores, s.mode, s.relax) == []
    ensures Pp(scores + [s], s.mode, s.relax) == s.pp + 0.25000002
  {
    assert (scores + [s])[..|scores|] == scores;
    assert Selected(scores + [s], s.mode, s.relax) == [s];
    assert [s][..0] == [];
    assert Bests([s]) == [Entry(s.mapMd5, s.pp)];
    assert Pps([Entry(s.mapMd5, s.pp)]) == [s.pp];
    assert SortDesc([s.pp]) == Insert([], s.pp) == [s.pp];
    assert Weighted([s.pp], 1.0) == s.pp * 1.0 + Weighted([], 0.95);
    assert RealPow(0.9994, 1) == 0.9994 * RealPow(0.9994, 0);
  }

  // ---------- the code ----------

  method CalculateWeightedPp(pps: seq<real>) returns (total: real)
    ensures total == ProfileOf(pps) == RankedSum(pps, |pps|) + 416.6667 * (1.0 - RealPow(0.9994, |pps|))
  {
    ProfileFormula(pps);
    total := 0.0;
    var weight, i := 1.0, 0;
    while i < |pps|
      invariant i <= |pps| && total + Weighted(pps[i..], weight) == Weighted(pps, 1.0)
    {
      assert pps[i..][1..] == pps[i + 1..];
      total := total + pps[i] * weight;
      weight := weight * 0.95;
      i := i + 1;
    }
    total := total + 416.6667 * (1.0 - RealPow(0.9994, |pps|));
  }

  function Weights(n: nat, weight: real): real {
    if n == 0 then 0.0 else weight + Weights(n - 1, weight * 0.95)
  }

  predicate Within(accs: seq<real>, low: real, high: real) {
    forall i :: 0 <= i < |accs| ==> low <= accs[i] <= high
  }

  // A weighted mean lies between the least and the greatest value.
  lemma {:induction false} MeanBetween(accs: seq<real>, weight: real, low: real, high: real)
    requires weight > 0.0 && Within(accs, low, high)
    ensures low * Weights(|accs|, weight) <= Weighted(accs, weight) <= high * Weights(|accs|, weight)
    ensures accs != [] ==> Weights(|accs|, weight) > 0.0
  {
    if accs != [] {
      MeanBetween(accs[1..], weight * 0.95, low, high);
      var rest := Weights(|accs| - 1, weight * 0.95);
      if |accs| == 1 { assert rest == 0.0; }
      assert low * (weight + rest) == low * weight + low * rest;
      assert high * (weight + rest) == high * weight + high * rest;
      assert (accs[0] - low) * weight >= 0.0 && (high - accs[0]) * weight >= 0.0;
    }
  }

  // calculate_weighted_accuracy: the mean with weights 0.95^i, kept within 0 and 100.
  method CalculateWeightedAccuracy(accs: seq<real>) returns (mean: real)
    ensures 0.0 <= mean <= 100.0
    ensures accs == [] ==> mean == 0.0
    ensures accs != [] && Within(accs, 0.0, 100.0) ==> mean * Weights(|accs|, 1.0) == Weighted(accs, 1.0)
    ensures forall low, high ::
      0.0 <= low && high <= 100.0 && accs != [] && Within(accs, low, high) ==> low <= mean <= high
  {
    if accs == [] { return 0.0; }
    hide Within;
    var sum, weightSum := SumUp(accs);
    WeightsPositive(|accs|, 1.0);
    if weightSum <= 0.0 { return 0.0; }
    mean := sum / weightSum;
    assert mean * weightSum == sum;
    forall low, high | Within(accs, low, high) ensures low <= mean <= high {
      MeanBetween(accs, 1.0, low, high);
      Divides(low, mean, high, weightSum);
    }
    mean := if mean < 0.0 then 0.0 else if mean > 100.0 then 100.0 else mean;
  }

  method SumUp(accs: seq<real>) returns (sum: real, weightSum: real)
    ensures sum == Weighted(accs, 1.0) && weightSum == Weights(|accs|, 1.0)
  {
    sum, weightSum := 0.0, 0.0;
    var weight, i := 1.0, 0;
    while i < |accs|
      invariant i <= |accs|
      invariant sum + Weighted(accs[i..], weight) == Weighted(accs, 1.0)
      invariant weightSum + Weights(|accs| - i, weight) == Weights(|accs|, 1.0)
    {
      assert accs[i..][1..] == accs[i + 1..];
      sum := sum + accs[i] * weight;
      weightSum := weightSum + weight;
      weight := weight * 0.95;
      i := i + 1;
    }
  }

  lemma {:induction false} WeightsPositive(n: nat, weight: real)
    requires weight > 0.0
    ensures n > 0 ==> Weights(n, weight) > 0.0
    ensures Weights(n, weight) >= 0.0
  {
    if n > 0 { WeightsPositive(n - 1, weight * 0.95); }
  }

  lemma Divides(low: real, mean: real, high: real, w: real)
    requires w > 0.0 && low * w <= mean * w <= high * w
    ensures low <= mean <= high
  {
    Sign(mean - low, w);
    Sign(high - mean, w);
  }

  lemma Sign(d: real, w: real)
    requires w > 0.0
    ensures d * w < 0.0 <==> d < 0.0
  {
  }

  // The scores table and the pp column of the stats rows.
  class Profile {
    var scores: seq<Score>
    var pp: map<u8, int>

    ghost predicate Valid()
      reads this
    {
      && (forall s :: s in scores ==> s.pp >= 0.0)
      && (forall row: u8 :: (if row in pp then pp[row] else 0) == RowPp(scores, row))
    }

    constructor ()
      ensures Valid() && scores == []
    {
      scores, pp := [], map[];
    }

    // save_score, as far as pp goes: the row as it was and as it is.
    method SaveScore(s: Score) returns (before: int, after: int)
      requires Valid() && s.pp >= 0.0
      modifies this
      ensures Valid() && scores == old(scores) + [s]
      ensures before == RowPp(old(scores), StatsMode(s.mode, s.relax))
      ensures after == RowPp(scores, StatsMode(s.mode, s.relax)) == Stored(Pp(scores, s.mode, s.relax))
      ensures OneKind(old(scores), s.mode, s.relax) ==> before <= after
    {
      hide Stored; hide Pp; hide TopPps;
      var row := StatsMode(s.mode, s.relax);
      before := if row in pp then pp[row] else 0;
      if OneKind(scores, s.mode, s.relax) { RowNeverFalls(scores, s); }
      ghost var earlier := scores;
      scores := scores + [s];
      assert scores[..|scores| - 1] == earlier;
      var total := CalculateWeightedPp(TopPps(scores, s.mode, s.relax));
      after := Stored(total);
      SamePp(scores, s.mode, s.relax, total);
      pp := pp[row := after];
    }
  }

  lemma SamePp(scores: seq<Score>, mode: u8, relax: bool, total: real)
    requires total == ProfileOf(TopPps(scores, mode, relax))
    ensures total == Pp(scores, mode, relax)
  {
  }
}
