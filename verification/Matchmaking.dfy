/** The matchmaker: one greedy pass over the players who are searching. */
module Matchmaking {
  import opened Wrappers

  const MAX_ELO_GAP := 100
  const SEARCH_LIMIT_S := 60

  function Gap(x: int, y: int): nat {
    if x < y then y - x else x - y
  }

  /** Two ratings between which a game may be arranged. */
  predicate Close(x: int, y: int) {
    -100 <= x - y <= 100
  }

  // ---------- the greedy pairing, on ratings ----------

  /** The first free player from `j` on whose rating is close enough to player `i`'s. */
  function Partner(elos: seq<int>, free: seq<bool>, i: nat, j: nat): (r: Option<nat>)
    requires |free| == |elos| && i < |elos| && j <= |elos|
    ensures r.Some? ==> j <= r.value < |elos| && free[r.value] && Close(elos[i], elos[r.value])
    ensures forall k :: j <= k < (if r.Some? then r.value else |elos|) && free[k] ==> !Close(elos[i], elos[k])
    decreases |elos| - j
  {
    if j == |elos| then None
    else if free[j] && Gap(elos[i], elos[j]) <= MAX_ELO_GAP then Some(j)
    else Partner(elos, free, i, j + 1)
  }

  /** Each player in turn, if still free, is paired with the first free player after them within reach. */
  function Pairing(elos: seq<int>, free: seq<bool>, i: nat): seq<(nat, nat)>
    requires |free| == |elos| && i <= |elos|
    decreases |elos| - i
  {
    if i == |elos| then []
    else if !free[i] then Pairing(elos, free, i + 1)
    else
      match Partner(elos, free, i, i + 1)
      case None => Pairing(elos, free, i + 1)
      case Some(j) => [(i, j)] + Pairing(elos, free[i := false][j := false], i + 1)
  }

  function AllFree(n: nat): (r: seq<bool>)
    ensures |r| == n && forall k :: 0 <= k < n ==> r[k]
  {
    seq(n, _ => true)
  }

  /** `p` pairs two different players, the earlier one first, whose ratings are close enough. */
  predicate Legal(elos: seq<int>, p: (nat, nat)) {
    p.0 < p.1 < |elos| && Close(elos[p.0], elos[p.1])
  }

  predicate Disjoint(p: (nat, nat), q: (nat, nat)) {
    p.0 != q.0 && p.0 != q.1 && p.1 != q.0 && p.1 != q.1
  }

  predicate Involves(p: (nat, nat), k: nat) {
    p.0 == k || p.1 == k
  }

  ghost predicate Paired(pairs: seq<(nat, nat)>, k: nat) {
    exists p :: p in pairs && Involves(p, k)
  }

  lemma {:induction false} PairingFacts(elos: seq<int>, free: seq<bool>, i: nat)
    requires |free| == |elos| && i <= |elos|
    ensures var pairs := Pairing(elos, free, i);
      && (forall p :: p in pairs ==> Legal(elos, p) && i <= p.0 && free[p.0] && free[p.1])
      && (forall m, n :: 0 <= m < n < |pairs| ==> Disjoint(pairs[m], pairs[n]))
    decreases |elos| - i
  {
    if i < |elos| {
      if !free[i] || Partner(elos, free, i, i + 1).None? {
        PairingFacts(elos, free, i + 1);
      } else {
        var j := Partner(elos, free, i, i + 1).value;
        var left := free[i := false][j := false];
        PairingFacts(elos, left, i + 1);
        var rest := Pairing(elos, left, i + 1);
        forall p | p in rest ensures Disjoint((i, j), p) && free[p.0] && free[p.1] {
          assert left[p.0] && left[p.1];
        }
      }
    }
  }

  /** `q` comes no later than `p` when the players are gone through in turn, and so are the partners of each. */
  predicate NoLater(q: (nat, nat), p: (nat, nat)) {
    q.0 < p.0 || (q.0 == p.0 && q.1 <= p.1)
  }

  /** A pair that is not made is not made because of one of its players, who has been paired no later. */
  ghost predicate Settled(pairs: seq<(nat, nat)>, p: (nat, nat)) {
    exists q :: q in pairs && (Involves(q, p.0) || Involves(q, p.1)) && NoLater(q, p)
  }

  /**
   Every legal pair is made, or one of its players is taken by a pair that comes before it.  With `PairingFacts` this
   leaves only one result.
   */
  lemma {:induction false} PairingSettles(elos: seq<int>, free: seq<bool>, i: nat, x: nat, y: nat)
    requires |free| == |elos| && i <= x < y < |elos| && free[x] && free[y] && Close(elos[x], elos[y])
    ensures Settled(Pairing(elos, free, i), (x, y))
    decreases |elos| - i
  {
    if free[i] && Partner(elos, free, i, i + 1).Some? {
      var j := Partner(elos, free, i, i + 1).value;
      var left := free[i := false][j := false];
      var rest, pairs := Pairing(elos, left, i + 1), Pairing(elos, free, i);
      assert pairs[0] == (i, j) && (i, j) in pairs;
      if x != i && x != j && y != j {
        PairingSettles(elos, left, i + 1, x, y);
        var q :| q in rest && (Involves(q, x) || Involves(q, y)) && NoLater(q, (x, y));
        assert q in pairs;
      } else {
        assert Involves((i, j), x) || Involves((i, j), y);
      }
    } else {
      PairingSettles(elos, free, i + 1, x, y);
    }
  }

  /**
   What the pass has to achieve: ratings in a pair differ by at most 100, nobody is in two pairs, and every pair that
   could be made is made or has a player who is taken by a pair that comes before it.
   */
  ghost predicate GreedyMatches(elos: seq<int>, pairs: seq<(nat, nat)>) {
    && (forall p :: p in pairs ==> p.0 < p.1 < |elos| && -100 <= elos[p.0] - elos[p.1] <= 100)
    && (forall m, n :: 0 <= m < n < |pairs| ==> Disjoint(pairs[m], pairs[n]))
    && (forall i: nat, k: nat :: i < k < |elos| && -100 <= elos[i] - elos[k] <= 100 ==> Settled(pairs, (i, k)))
  }

  lemma PairingIsGreedy(elos: seq<int>)
    ensures GreedyMatches(elos, Pairing(elos, AllFree(|elos|), 0))
  {
    var pairs := Pairing(elos, AllFree(|elos|), 0);
    PairingFacts(elos, AllFree(|elos|), 0);
    forall p | p in pairs ensures p.0 < p.1 < |elos| && -100 <= elos[p.0] - elos[p.1] <= 100 {
      assert Legal(elos, p);
    }
    forall i: nat, k: nat | i < k < |elos| && -100 <= elos[i] - elos[k] <= 100 ensures Settled(pairs, (i, k)) {
      PairingSettles(elos, AllFree(|elos|), 0, i, k);
    }
  }

  lemma Apart(elos: seq<int>, pairs: seq<(nat, nat)>, p: (nat, nat), q: (nat, nat))
    requires GreedyMatches(elos, pairs) && p in pairs && q in pairs && p != q
    ensures Disjoint(p, q)
  {
    var m :| 0 <= m < |pairs| && pairs[m] == p;
    var n :| 0 <= n < |pairs| && pairs[n] == q;
    assert Disjoint(pairs[m], pairs[n]) || Disjoint(pairs[n], pairs[m]);
  }

  lemma Blocker(elos: seq<int>, pairs: seq<(nat, nat)>, p: (nat, nat)) returns (q: (nat, nat))
    requires GreedyMatches(elos, pairs) && p !in pairs
    requires p.0 < p.1 < |elos| && -100 <= elos[p.0] - elos[p.1] <= 100
    ensures q in pairs && !Disjoint(p, q) && (q.0 < p.0 || (q.0 == p.0 && q.1 < p.1))
  {
    assert Settled(pairs, (p.0, p.1)) && p == (p.0, p.1);
    q :| q in pairs && (Involves(q, p.0) || Involves(q, p.1)) && NoLater(q, p);
  }

  /** That leaves only one choice of pairs. */
  lemma {:induction false} OneGreedy(elos: seq<int>, xs: seq<(nat, nat)>, ys: seq<(nat, nat)>, p: (nat, nat))
    requires GreedyMatches(elos, xs) && GreedyMatches(elos, ys) && p in xs
    ensures p in ys
    decreases p.0, p.1
  {
    if p !in ys {
      var q := Blocker(elos, ys, p);
      OneGreedy(elos, ys, xs, q);
      Apart(elos, xs, p, q);
    }
  }

  /** Two players who both stay unpaired are out of each other's reach. */
  lemma PairingMaximal(elos: seq<int>, x: nat, y: nat)
    requires x < y < |elos|
    requires !Paired(Pairing(elos, AllFree(|elos|), 0), x) && !Paired(Pairing(elos, AllFree(|elos|), 0), y)
    ensures elos[x] - elos[y] > 100 || elos[y] - elos[x] > 100
  {
    if Close(elos[x], elos[y]) {
      PairingSettles(elos, AllFree(|elos|), 0, x, y);
    }
  }

  // ---------- at least half of what is possible ----------

  function Ends(pairs: seq<(nat, nat)>): set<nat> {
    if pairs == [] then {} else {pairs[0].0, pairs[0].1} + Ends(pairs[1..])
  }

  lemma {:induction false} EndsSize(pairs: seq<(nat, nat)>)
    ensures |Ends(pairs)| <= 2 * |pairs|
  {
    if pairs != [] {
      EndsSize(pairs[1..]);
      var two := {pairs[0].0, pairs[0].1};
      assert |two| <= 2 by { assert two == {pairs[0].0} + {pairs[0].1}; }
      assert |two + Ends(pairs[1..])| <= |two| + |Ends(pairs[1..])|;
    }
  }

  lemma {:induction false} EndsPaired(pairs: seq<(nat, nat)>, k: nat)
    ensures k in Ends(pairs) <==> Paired(pairs, k)
  {
    if pairs != [] {
      EndsPaired(pairs[1..], k);
      assert pairs == [pairs[0]] + pairs[1..];
      if Paired(pairs, k) {
        var p :| p in pairs && Involves(p, k);
        assert p == pairs[0] || p in pairs[1..];
      }
      if Involves(pairs[0], k) { assert pairs[0] in pairs; }
    }
  }

  /** Disjoint pairs that each touch `s` are no more than `s` has elements. */
  lemma {:induction false} TouchingBound(matching: set<(nat, nat)>, s: set<nat>)
    requires forall p :: p in matching ==> p.0 in s || p.1 in s
    requires forall p, q :: p in matching && q in matching && p != q ==> Disjoint(p, q)
    ensures |matching| <= |s|
    decreases matching
  {
    if matching != {} {
      var p :| p in matching;
      var v := if p.0 in s then p.0 else p.1;
      forall q | q in matching - {p} ensures q.0 in s - {v} || q.1 in s - {v} {
        assert Disjoint(p, q);
      }
      TouchingBound(matching - {p}, s - {v});
    }
  }

  /** However the searching players could legally be paired off, the greedy pass makes at least half as many pairs. */
  lemma AtLeastHalf(elos: seq<int>, matching: set<(nat, nat)>)
    requires forall p :: p in matching ==> p.0 < p.1 < |elos| && -100 <= elos[p.0] - elos[p.1] <= 100
    requires forall p, q :: p in matching && q in matching && p != q ==> Disjoint(p, q)
    ensures |matching| <= 2 * |Pairing(elos, AllFree(|elos|), 0)|
  {
    var pairs := Pairing(elos, AllFree(|elos|), 0);
    forall p | p in matching ensures p.0 in Ends(pairs) || p.1 in Ends(pairs) {
      EndsPaired(pairs, p.0);
      EndsPaired(pairs, p.1);
      if !Paired(pairs, p.0) && !Paired(pairs, p.1) {
        PairingMaximal(elos, p.0, p.1);
      }
    }
    TouchingBound(matching, Ends(pairs));
    EndsSize(pairs);
  }

  // ---------- the pass over the client records ----------

  class Client {
    const elo: int
    const searchStart: int
    var isSearching: bool
    var inGame: bool
    var color: string

    constructor (elo: int, searchStart: int)
      ensures this.elo == elo && this.searchStart == searchStart && isSearching && !inGame && color == "VIEWER"
    {
      this.elo, this.searchStart := elo, searchStart;
      isSearching, inGame, color := true, false, "VIEWER";
    }
  }

  function Elos(clients: seq<Client>): (r: seq<int>)
    ensures |r| == |clients| && forall k :: 0 <= k < |clients| ==> r[k] == clients[k].elo
  {
    seq(|clients|, k requires 0 <= k < |clients| => clients[k].elo)
  }

  ghost predicate Distinct(clients: seq<Client>) {
    forall i, j :: 0 <= i < j < |clients| ==> clients[i] != clients[j]
  }

  /** The players who are searching, in list order. */
  function Searching(clients: seq<Client>): seq<Client>
    reads clients
  {
    if clients == [] then []
    else if clients[0].isSearching then [clients[0]] + Searching(clients[1..])
    else Searching(clients[1..])
  }

  lemma {:induction false} SearchingFacts(clients: seq<Client>)
    requires Distinct(clients)
    ensures Distinct(Searching(clients))
    ensures forall c :: c in Searching(clients) <==> c in clients && c.isSearching
  {
    if clients != [] {
      SearchingFacts(clients[1..]);
      assert forall c :: c in clients <==> c == clients[0] || c in clients[1..];
    }
  }

  /** Whoever comes first in the list comes first among those who search. */
  lemma {:induction false} SearchingOrder(clients: seq<Client>, i: nat, j: nat, x: nat, y: nat)
    requires Distinct(clients) && i < j < |Searching(clients)| && x < |clients| && y < |clients|
    requires clients[x] == Searching(clients)[i] && clients[y] == Searching(clients)[j]
    ensures x < y
  {
    var rest := clients[1..];
    SearchingFacts(rest);
    var n := if clients[0].isSearching then 1 else 0;
    assert Searching(clients)[j] == Searching(rest)[j - n] && clients[y] in rest;
    if i >= n {
      assert Searching(clients)[i] == Searching(rest)[i - n] && clients[x] in rest;
      SearchingOrder(rest, i - n, j - n, x - 1, y - 1);
    }
  }

  lemma {:induction false} SearchingSnoc(clients: seq<Client>, c: Client)
    ensures Searching(clients + [c]) == if c.isSearching then Searching(clients) + [c] else Searching(clients)
  {
    if clients != [] {
      assert (clients + [c])[1..] == clients[1..] + [c];
      SearchingSnoc(clients[1..], c);
    }
  }

  method CollectSearching(clients: seq<Client>) returns (searching: seq<Client>)
    ensures searching == Searching(clients)
  {
    searching := [];
    for i := 0 to |clients|
      invariant searching == Searching(clients[..i])
    {
      assert clients[..i + 1] == clients[..i] + [clients[i]];
      SearchingSnoc(clients[..i], clients[i]);
      if clients[i].isSearching {
        searching := searching + [clients[i]];
      }
    }
    assert clients[..|clients|] == clients;
  }

  /** What the pass reads and writes of a client. */
  datatype Record = Record(isSearching: bool, inGame: bool, color: string)

  const SEATED_WHITE := Record(false, true, "WHITE")
  const SEATED_BLACK := Record(false, true, "BLACK")

  ghost function RecordOf(c: Client): Record
    reads c
  {
    Record(c.isSearching, c.inGame, c.color)
  }

  /** `records` is what the clients hold. */
  ghost predicate Holds(clients: seq<Client>, records: seq<Record>)
    reads clients
  {
    |records| == |clients| && forall k :: 0 <= k < |clients| ==> RecordOf(clients[k]) == records[k]
  }

  function Flags(records: seq<Record>): (free: seq<bool>)
    ensures |free| == |records| && forall k :: 0 <= k < |records| ==> free[k] == records[k].isSearching
  {
    seq(|records|, k requires 0 <= k < |records| => records[k].isSearching)
  }

  predicate Within(pairs: seq<(nat, nat)>, n: nat) {
    forall p :: p in pairs ==> p.0 < n && p.1 < n
  }

  /** The records once the pairs have been seated, one after the other. */
  ghost function Seated(records: seq<Record>, pairs: seq<(nat, nat)>): (r: seq<Record>)
    requires Within(pairs, |records|)
    ensures |r| == |records|
  {
    if pairs == [] then records
    else
      var last := pairs[|pairs| - 1];
      assert last in pairs;
      Seated(records, pairs[..|pairs| - 1])[last.0 := SEATED_WHITE][last.1 := SEATED_BLACK]
  }

  lemma PairedSnoc(pairs: seq<(nat, nat)>, p: (nat, nat), k: nat)
    ensures Paired(pairs + [p], k) <==> Paired(pairs, k) || Involves(p, k)
  {
    if Paired(pairs + [p], k) {
      var q :| q in pairs + [p] && Involves(q, k);
      assert q in pairs || q == p;
    }
    if Paired(pairs, k) {
      var q :| q in pairs && Involves(q, k);
      assert q in pairs + [p];
    }
    assert p in pairs + [p];
  }

  lemma {:induction false} SeatedUntouched(records: seq<Record>, pairs: seq<(nat, nat)>, k: nat)
    requires Within(pairs, |records|) && k < |records| && !Paired(pairs, k)
    ensures Seated(records, pairs)[k] == records[k]
    decreases |pairs|
  {
    if pairs != [] {
      var last, front := pairs[|pairs| - 1], pairs[..|pairs| - 1];
      assert pairs == front + [last];
      PairedSnoc(front, last, k);
      SeatedUntouched(records, front, k);
    }
  }

  lemma {:induction false} SeatedPair(records: seq<Record>, pairs: seq<(nat, nat)>, n: nat)
    requires Within(pairs, |records|) && n < |pairs|
    requires forall p :: p in pairs ==> p.0 != p.1
    requires forall i, j :: 0 <= i < j < |pairs| ==> Disjoint(pairs[i], pairs[j])
    ensures pairs[n].0 < |records| && pairs[n].1 < |records|
    ensures Seated(records, pairs)[pairs[n].0] == SEATED_WHITE && Seated(records, pairs)[pairs[n].1] == SEATED_BLACK
    decreases |pairs|
  {
    var last, front := pairs[|pairs| - 1], pairs[..|pairs| - 1];
    assert last in pairs && pairs[n] in pairs;
    if n < |pairs| - 1 {
      assert front[n] == pairs[n] && Disjoint(pairs[n], last);
      assert forall p :: p in front ==> p in pairs;
      SeatedPair(records, front, n);
    }
  }

  /** The inner loop: the first client after the `i`-th who is searching and close enough. */
  method FindPartner(searching: seq<Client>, i: nat, ghost records: seq<Record>) returns (j: nat)
    requires i < |searching| && Holds(searching, records)
    ensures var partner := Partner(Elos(searching), Flags(records), i, i + 1);
      if partner.Some? then j == partner.value else j == |searching|
  {
    j := i + 1;
    while j < |searching|
      invariant i < j <= |searching|
      invariant Partner(Elos(searching), Flags(records), i, j) == Partner(Elos(searching), Flags(records), i, i + 1)
    {
      assert RecordOf(searching[j]) == records[j];
      if searching[j].isSearching {
        var gap := Gap(searching[i].elo, searching[j].elo);
        if gap <= MAX_ELO_GAP {
          return;
        }
      }
      j := j + 1;
    }
  }

  method Seat(searching: seq<Client>, i: nat, j: nat, ghost records: seq<Record>)
    requires Distinct(searching) && i < j < |searching| && Holds(searching, records)
    modifies searching[i], searching[j]
    ensures Holds(searching, records[i := SEATED_WHITE][j := SEATED_BLACK])
  {
    var white, black := searching[i], searching[j];
    white.isSearching, black.isSearching := false, false;
    white.inGame, black.inGame := true, true;
    white.color, black.color := "WHITE", "BLACK";
  }

  /** One turn of the pairing loop: the `i`-th client is seated with the partner found for it, if any. */
  method PairOne(searching: seq<Client>, i: nat, ghost now: seq<Record>)
    returns (found: seq<(nat, nat)>, ghost next: seq<Record>)
    requires Distinct(searching) && i < |searching| && Holds(searching, now)
    modifies searching
    ensures |next| == |now| && Holds(searching, next)
    ensures (found == [] && next == now)
      || (exists j :: i < j < |searching| && found == [(i, j)] && next == now[i := SEATED_WHITE][j := SEATED_BLACK])
    ensures Pairing(Elos(searching), Flags(now), i) == found + Pairing(Elos(searching), Flags(next), i + 1)
  {
    found, next := [], now;
    assert RecordOf(searching[i]) == now[i];
    if searching[i].isSearching {
      var j := FindPartner(searching, i, now);
      if j < |searching| {
        Seat(searching, i, j, now);
        next := now[i := SEATED_WHITE][j := SEATED_BLACK];
        PairingStep(Elos(searching), now, next, i, j);
        found := [(i, j)];
        return;
      }
    }
    PairingSkip(Elos(searching), now, i);
  }

  /** The pairing loop. */
  method PairUp(searching: seq<Client>, ghost records: seq<Record>) returns (pairs: seq<(nat, nat)>)
    requires Distinct(searching) && Holds(searching, records)
    modifies searching
    ensures pairs == Pairing(Elos(searching), Flags(records), 0)
    ensures Within(pairs, |searching|) && Holds(searching, Seated(records, pairs))
  {
    pairs := [];
    ghost var elos, now := Elos(searching), records;
    for i := 0 to |searching|
      invariant Within(pairs, |searching|) && now == Seated(records, pairs) && Holds(searching, now)
      invariant pairs + Pairing(elos, Flags(now), i) == Pairing(elos, Flags(records), 0)
    {
      var found;
      ghost var next;
      found, next := PairOne(searching, i, now);
      SeatedJoin(records, pairs, found);
      PairsJoin(pairs, found, Pairing(elos, Flags(next), i + 1));
      pairs, now := pairs + found, next;
    }
  }

  lemma SeatedSnoc(records: seq<Record>, pairs: seq<(nat, nat)>, p: (nat, nat))
    requires Within(pairs, |records|) && p.0 < |records| && p.1 < |records|
    ensures Within(pairs + [p], |records|)
    ensures Seated(records, pairs + [p]) == Seated(records, pairs)[p.0 := SEATED_WHITE][p.1 := SEATED_BLACK]
  {
    assert (pairs + [p])[..|pairs|] == pairs;
  }

  lemma SeatedJoin(records: seq<Record>, pairs: seq<(nat, nat)>, found: seq<(nat, nat)>)
    requires Within(pairs, |records|) && Within(found, |records|) && |found| <= 1
    ensures Within(pairs + found, |records|)
    ensures Seated(records, pairs + found) == if found == [] then Seated(records, pairs)
      else Seated(records, pairs)[found[0].0 := SEATED_WHITE][found[0].1 := SEATED_BLACK]
  {
    if found == [] {
      assert pairs + found == pairs;
    } else {
      assert found == [found[0]];
      SeatedSnoc(records, pairs, found[0]);
    }
  }

  lemma PairsJoin(pairs: seq<(nat, nat)>, found: seq<(nat, nat)>, rest: seq<(nat, nat)>)
    ensures pairs + found + rest == pairs + (found + rest)
  {
  }

  lemma PairingStep(elos: seq<int>, now: seq<Record>, next: seq<Record>, i: nat, j: nat)
    requires |elos| == |now| && i < j < |elos| && now[i].isSearching
    requires Partner(elos, Flags(now), i, i + 1) == Some(j)
    requires next == now[i := SEATED_WHITE][j := SEATED_BLACK]
    ensures Pairing(elos, Flags(now), i) == [(i, j)] + Pairing(elos, Flags(next), i + 1)
  {
    assert Flags(next) == Flags(now)[i := false][j := false];
  }

  lemma PairingSkip(elos: seq<int>, now: seq<Record>, i: nat)
    requires |elos| == |now| && i < |elos|
    requires !now[i].isSearching || Partner(elos, Flags(now), i, i + 1).None?
    ensures Pairing(elos, Flags(now), i) == Pairing(elos, Flags(now), i + 1)
  {
  }

  /** What becomes of a record whose client has searched for `waited` ms: after a minute it searches no more. */
  function Expire(r: Record, waited: int): Record {
    r.(isSearching := r.isSearching && waited < 60_000)
  }

  /** The last loop: whoever has searched for a minute in vain is told so and taken off the list. */
  method DropExpired(searching: seq<Client>, now: int, ghost records: seq<Record>)
    requires Distinct(searching) && Holds(searching, records)
    modifies searching
    ensures forall k :: 0 <= k < |searching| ==>
      RecordOf(searching[k]) == Expire(records[k], now - searching[k].searchStart)
  {
    for i := 0 to |searching|
      invariant forall k :: 0 <= k < i ==> RecordOf(searching[k]) == Expire(records[k], now - searching[k].searchStart)
      invariant forall k :: i <= k < |searching| ==> RecordOf(searching[k]) == records[k]
    {
      var c := searching[i];
      assert RecordOf(c) == records[i];
      if c.isSearching {
        var elapsed := (now - c.searchStart) / 1000;
        if elapsed >= SEARCH_LIMIT_S {
          c.isSearching := false;
        }
      }
    }
  }

  /** The pass over those who search: `records` is what they hold before it. */
  method Match(searching: seq<Client>, now: int, ghost records: seq<Record>) returns (pairs: seq<(nat, nat)>)
    requires Distinct(searching) && Holds(searching, records) && (forall r :: r in records ==> r.isSearching)
    modifies searching
    ensures pairs == Pairing(Elos(searching), AllFree(|searching|), 0) && GreedyMatches(Elos(searching), pairs)
    ensures Within(pairs, |searching|)
    ensures forall p :: p in pairs ==>
      && RecordOf(searching[p.0]) == Record(false, true, "WHITE")
      && RecordOf(searching[p.1]) == Record(false, true, "BLACK")
    ensures forall k :: 0 <= k < |searching| && !Paired(pairs, k) ==>
      RecordOf(searching[k]) == records[k].(isSearching := now - searching[k].searchStart < 60_000)
  {
    assert Flags(records) == AllFree(|searching|);
    pairs := PairUp(searching, records);
    PairingFacts(Elos(searching), AllFree(|searching|), 0);
    PairingIsGreedy(Elos(searching));
    forall p | p in pairs
      ensures Seated(records, pairs)[p.0] == SEATED_WHITE && Seated(records, pairs)[p.1] == SEATED_BLACK
    {
      var n :| 0 <= n < |pairs| && pairs[n] == p;
      SeatedPair(records, pairs, n);
    }
    forall k | 0 <= k < |searching| && !Paired(pairs, k) ensures Seated(records, pairs)[k] == records[k] {
      SeatedUntouched(records, pairs, k);
    }
    DropExpired(searching, now, Seated(records, pairs));
  }

  /**
   One pass of the matchmaker: `pairs` are the matches found, by index into the list of those who were searching.
   Ratings in a match differ by at most 100, nobody is in two, and a match that could be made and is not is one of whose
   players is in a match that comes before it.  Those matched are seated; those left over go on searching unless their
   minute is up; nobody else is touched.
   */
  method ProcessMatchmaking(clients: seq<Client>, now: int) returns (searching: seq<Client>, pairs: seq<(nat, nat)>)
    requires Distinct(clients)
    modifies clients
    ensures searching == old(Searching(clients))
    ensures pairs == Pairing(Elos(searching), AllFree(|searching|), 0) && GreedyMatches(Elos(searching), pairs)
    ensures Within(pairs, |searching|)
    ensures forall p :: p in pairs ==>
      && RecordOf(searching[p.0]) == Record(false, true, "WHITE")
      && RecordOf(searching[p.1]) == Record(false, true, "BLACK")
    ensures forall c, k :: c in clients && 0 <= k < |searching| && searching[k] == c && !Paired(pairs, k) ==>
      RecordOf(c) == old(RecordOf(c)).(isSearching := now - c.searchStart < 60_000)
    ensures forall c :: c in clients && c !in searching ==> RecordOf(c) == old(RecordOf(c))
  {
    searching := CollectSearching(clients);
    SearchingFacts(clients);
    ghost var records := RecordsOf(searching);
    forall r | r in records ensures r.isSearching {
      var k :| 0 <= k < |searching| && records[k] == r;
      assert searching[k] in searching;
    }
    pairs := Match(searching, now, records);
  }

  ghost function RecordsOf(clients: seq<Client>): (records: seq<Record>)
    reads clients
    ensures Holds(clients, records)
  {
    seq(|clients|, k requires 0 <= k < |clients| reads clients => RecordOf(clients[k]))
  }
}
