/** Who watches whom: the list of spectators of each host and the host of each spectator. */
module Spectating {
  import opened Wrappers

  datatype Watch = Watch(spectators: map<int, seq<int>>, target: map<int, int>)

  const NO_ONE_WATCHING := Watch(map[], map[])

  // The list with every x taken out, order kept.
  function Without(list: seq<int>, x: int): (rest: seq<int>)
    ensures forall y :: y in rest <==> y in list && y != x
  {
    if list == [] then []
    else if list[|list| - 1] == x then Without(list[..|list| - 1], x)
    else Without(list[..|list| - 1], x) + [list[|list| - 1]]
  }

  function Elements(list: seq<int>): set<int> {
    set y | y in list
  }

  function WatchersOf(w: Watch, host: int): seq<int> {
    if host in w.spectators then w.spectators[host] else []
  }

  function Stop(w: Watch, user: int): (Watch, Option<int>) {
    if user !in w.target then (w, None) else
    var host := w.target[user];
    var target := w.target - {user};
    if host !in w.spectators then (Watch(w.spectators, target), Some(host)) else
    var rest := Without(w.spectators[host], user);
    (Watch(if rest == [] then w.spectators - {host} else w.spectators[host := rest], target), Some(host))
  }

  function Start(w: Watch, user: int, host: int): Watch {
    Watch(w.spectators[host := WatchersOf(w, host) + [user]], w.target[user := host])
  }

  function DropHost(w: Watch, host: int): Watch {
    Watch(w.spectators - {host}, w.target - Elements(WatchersOf(w, host)))
  }

  predicate NoRepeats(list: seq<int>) {
    forall i, j :: 0 <= i < j < |list| ==> list[i] != list[j]
  }

  ghost predicate GoodList(w: Watch, online: set<int>, host: int, list: seq<int>) {
    && list != [] && NoRepeats(list) && host in online
    && forall s :: s in list ==> s in w.target && w.target[s] == host && s != host && s in online
  }

  // spectating_target and the spectator lists are inverse; no list is empty or repeats anyone,
  // nobody watches themselves and both ends are online.
  ghost predicate WatchInv(w: Watch, online: set<int>) {
    && (forall s :: s in w.target ==> s in WatchersOf(w, w.target[s]))
    && (forall h :: h in w.spectators ==> GoodList(w, online, h, w.spectators[h]))
  }

  lemma WatchIsInverse(w: Watch, online: set<int>, s: int, h: int)
    requires WatchInv(w, online)
    ensures (s in w.target && w.target[s] == h) <==> s in WatchersOf(w, h)
    ensures s in WatchersOf(w, h) ==> multiset(WatchersOf(w, h))[s] == 1 && s != h && {s, h} <= online
  {
    if s in WatchersOf(w, h) {
      assert GoodList(w, online, h, w.spectators[h]);
      OnceOnly(w.spectators[h], s);
    }
  }

  lemma {:induction false} OnceOnly(list: seq<int>, s: int)
    requires NoRepeats(list)
    ensures multiset(list)[s] == if s in list then 1 else 0
  {
    if list != [] {
      var n := |list| - 1;
      assert list == list[..n] + [list[n]];
      OnceOnly(list[..n], s);
    }
  }

  lemma {:induction false} WithoutKeepsOrder(list: seq<int>, x: int)
    requires NoRepeats(list)
    ensures NoRepeats(Without(list, x))
    ensures x !in list ==> Without(list, x) == list
    ensures |Without(list, x)| == |list| - if x in list then 1 else 0
  {
    if list != [] {
      var n := |list| - 1;
      WithoutKeepsOrder(list[..n], x);
      assert list == list[..n] + [list[n]];
      assert list[n] !in list[..n];
      assert list[n] !in Without(list[..n], x);
    }
  }

  // Taking one out leaves the others in their order.
  lemma {:induction false} WithoutSplits(a: seq<int>, x: int, b: seq<int>)
    requires x !in a && x !in b
    ensures Without(a + [x] + b, x) == a + b
    decreases |b|
  {
    var list := a + [x] + b;
    if b == [] {
      assert list[..|list| - 1] == a;
      NothingTaken(a, x);
    } else {
      var front := b[..|b| - 1];
      assert list[..|list| - 1] == a + [x] + front;
      assert a + b == (a + front) + [b[|b| - 1]];
      WithoutSplits(a, x, front);
    }
  }

  lemma {:induction false} NothingTaken(list: seq<int>, x: int)
    requires x !in list
    ensures Without(list, x) == list
  {
    if list != [] { NothingTaken(list[..|list| - 1], x); }
  }

  lemma StopKeeps(w: Watch, online: set<int>, user: int)
    requires WatchInv(w, online)
    ensures WatchInv(Stop(w, user).0, online)
    ensures user !in Stop(w, user).0.target
    ensures Stop(w, user).1.Some? ==> Stop(w, user).1.value in online && Stop(w, user).1.value != user
  {
    if user in w.target {
      var host := w.target[user];
      var w' := Stop(w, user).0;
      assert GoodList(w, online, host, w.spectators[host]);
      WithoutKeepsOrder(w.spectators[host], user);
      forall h | h in w'.spectators ensures GoodList(w', online, h, w'.spectators[h]) {
        assert GoodList(w, online, h, w.spectators[h]);
      }
    }
  }

  lemma StartKeeps(w: Watch, online: set<int>, user: int, host: int)
    requires WatchInv(w, online) && user !in w.target
    requires user != host && user in online && host in online
    ensures WatchInv(Start(w, user, host), online)
  {
    var w' := Start(w, user, host);
    forall h | h in w'.spectators ensures GoodList(w', online, h, w'.spectators[h]) {
      if h in w.spectators { assert GoodList(w, online, h, w.spectators[h]); }
    }
  }

  // With the user neither watching nor watched, going offline disturbs nobody.
  lemma LeaveKeeps(w: Watch, online: set<int>, user: int)
    requires WatchInv(w, online) && user !in w.target
    ensures WatchInv(DropHost(w, user), online - {user})
    ensures user !in DropHost(w, user).target && user !in DropHost(w, user).spectators
    ensures forall s :: s in DropHost(w, user).target <==> s in w.target && w.target[s] != user
  {
    var w' := DropHost(w, user);
    forall s ensures s in w'.target <==> s in w.target && w.target[s] != user {
      WatchIsInverse(w, online, s, user);
    }
    forall h | h in w'.spectators ensures GoodList(w', online - {user}, h, w'.spectators[h]) {
      assert GoodList(w, online, h, w.spectators[h]);
    }
  }

  // The sum of the lengths of the lists of these hosts.
  ghost function TotalLength(lists: map<int, seq<int>>, hosts: set<int>): nat
    requires hosts <= lists.Keys
  {
    if !exists h :: h in hosts then 0 else
    var h :| h in hosts;
    |lists[h]| + TotalLength(lists, hosts - {h})
  }

  function Watching(w: Watch, hosts: set<int>): set<int> {
    set s | s in w.target && w.target[s] in hosts
  }

  lemma {:induction false} DistinctCount(list: seq<int>)
    requires NoRepeats(list)
    ensures |Elements(list)| == |list|
  {
    if list != [] {
      var n := |list| - 1;
      DistinctCount(list[..n]);
      assert Elements(list) == Elements(list[..n]) + {list[n]};
    }
  }

  lemma {:induction false} CountWatching(w: Watch, online: set<int>, hosts: set<int>)
    requires WatchInv(w, online) && hosts <= w.spectators.Keys
    ensures TotalLength(w.spectators, hosts) == |Watching(w, hosts)|
  {
    if exists h :: h in hosts {
      var h :| h in hosts && TotalLength(w.spectators, hosts) ==
        |w.spectators[h]| + TotalLength(w.spectators, hosts - {h});
      CountWatching(w, online, hosts - {h});
      OneHostMore(w, online, hosts - {h}, h);
      assert hosts - {h} + {h} == hosts;
    } else {
      assert Watching(w, hosts) == {};
    }
  }

  lemma OneHostMore(w: Watch, online: set<int>, hosts: set<int>, h: int)
    requires WatchInv(w, online) && h in w.spectators && h !in hosts
    ensures |Watching(w, hosts + {h})| == |Watching(w, hosts)| + |w.spectators[h]|
  {
    var list := w.spectators[h];
    assert GoodList(w, online, h, list);
    DistinctCount(list);
    assert Watching(w, hosts + {h}) == Watching(w, hosts) + Elements(list);
    assert Watching(w, hosts) !! Elements(list);
  }

  // All lists together hold as many names as there are spectators.
  lemma LengthsCountSpectators(w: Watch, online: set<int>)
    requires WatchInv(w, online)
    ensures TotalLength(w.spectators, w.spectators.Keys) == |w.target|
  {
    CountWatching(w, online, w.spectators.Keys);
    forall s | s in w.target ensures s in Watching(w, w.spectators.Keys) { WatchIsInverse(w, online, s, w.target[s]); }
    assert Watching(w, w.spectators.Keys) == w.target.Keys;
  }
}
