/** Least-recently-used rotation: the `ORDER BY last_used_at ASC, id ASC LIMIT 1` of
    internal/store, with a clock that counts whole seconds. */
module Rotation {
  import opened GoStrings

  /** What a row is ordered by before its id: a group and the time of its last use. */
  datatype Rank = Rank(group: int, used: int)

  type Ranks = map<int, Rank>

  predicate Before(ranks: Ranks, a: int, b: int)
    requires a in ranks && b in ranks
  {
    var x, y := ranks[a], ranks[b];
    x.group < y.group || (x.group == y.group && (x.used < y.used || (x.used == y.used && a <= b)))
  }

  ghost predicate IsFirst(ranks: Ranks, id: int) {
    id in ranks && forall other | other in ranks :: Before(ranks, id, other)
  }

  lemma EmptySet(s: set<int>)
    requires forall x :: x !in s
    ensures s == {}
  {
    var e: set<int> := {};
    assert forall x :: x in s <==> x in e;
    assert s == e;
  }

  lemma HasMember(s: set<int>)
    requires s != {}
    ensures exists x :: x in s
  {
    if forall x :: x !in s {
      EmptySet(s);
    }
  }

  lemma NoKeys(ranks: Ranks)
    ensures ranks.Keys == {} ==> ranks == map[]
  {
    var e: Ranks := map[];
    if ranks.Keys == {} {
      assert ranks == e;
    }
  }

  /** The row that the query returns. */
  ghost function First(ranks: Ranks): (r: Option<int>)
    ensures r.None? ==> ranks == map[]
    ensures r.Some? ==> IsFirst(ranks, r.value)
  {
    if ranks == map[] then None else
      NoKeys(ranks);
      FirstExists(ranks, ranks.Keys);
      assert exists id :: IsFirst(ranks, id) by {
        var id :| id in ranks.Keys && forall other | other in ranks.Keys :: Before(ranks, id, other);
        assert IsFirst(ranks, id);
      }
      var id :| IsFirst(ranks, id);
      Some(id)
  }

  lemma {:induction false} FirstExists(ranks: Ranks, ids: set<int>)
    requires ids != {} && ids <= ranks.Keys
    ensures exists id :: id in ids && forall other | other in ids :: Before(ranks, id, other)
    decreases |ids|
  {
    HasMember(ids);
    var x :| x in ids;
    var rest := ids - {x};
    if rest == {} {
      assert ids == {x};
    } else {
      FirstExists(ranks, rest);
      var y :| y in rest && forall other | other in rest :: Before(ranks, y, other);
      var best := if Before(ranks, x, y) then x else y;
      forall other | other in ids ensures Before(ranks, best, other) {
        assert other == x || other in rest;
      }
    }
  }

  lemma FirstIsUnique(ranks: Ranks, id: int)
    requires IsFirst(ranks, id)
    ensures First(ranks) == Some(id)
  {
    var other := First(ranks).value;
    assert Before(ranks, id, other) && Before(ranks, other, id);
  }

  /** Finds the first row by looking at each. */
  method SelectFirst(ranks: Ranks) returns (r: Option<int>)
    ensures r == First(ranks)
  {
    var rest := ranks.Keys;
    r := None;
    while rest != {}
      invariant rest <= ranks.Keys
      invariant r.None? ==> rest == ranks.Keys
      invariant r.Some? ==> r.value in ranks && forall other | other in ranks && other !in rest :: Before(ranks, r.value, other)
      decreases |rest|
    {
      HasMember(rest);
      var x :| x in rest;
      if r.None? || Before(ranks, x, r.value) {
        r := Some(x);
      }
      rest := rest - {x};
    }
    if r.Some? {
      FirstIsUnique(ranks, r.value);
    }
  }

  // ---- runs of picks ----

  /** When each enabled row was last used. */
  type Usage = map<int, int>

  ghost function Eligible(u: Usage, excluded: set<int>): Ranks {
    map id | id in u && id !in excluded :: Rank(0, u[id])
  }

  /** A pick at a time, with some rows excluded. */
  datatype Pick = Pick(excluded: set<int>, now: int)

  ghost function PickedBy(u: Usage, p: Pick): Option<int> {
    First(Eligible(u, p.excluded))
  }

  ghost function UsedAfter(u: Usage, p: Pick): (r: Usage)
    ensures r.Keys == u.Keys
  {
    match PickedBy(u, p)
    case None => u
    case Some(id) => u[id := p.now]
  }

  /** What a run of picks returns, one after the other. */
  ghost function PickAll(u: Usage, picks: seq<Pick>): seq<Option<int>> {
    if picks == [] then [] else [PickedBy(u, picks[0])] + PickAll(UsedAfter(u, picks[0]), picks[1..])
  }

  /** The rows that a pick would prefer to `a`. */
  ghost function AheadOf(u: Usage, a: int): set<int>
    requires a in u
  {
    set b | b in u && b != a && (u[b] < u[a] || (u[b] == u[a] && b < a))
  }

  predicate NonDecreasing(picks: seq<Pick>) {
    forall i, j | 0 <= i < j < |picks| :: picks[i].now <= picks[j].now
  }

  predicate Increasing(picks: seq<Pick>) {
    forall i, j | 0 <= i < j < |picks| :: picks[i].now < picks[j].now
  }

  /** A row that was used in the current second can be overtaken again, unless its id is
      the smallest. */
  predicate KeepsPlace(u: Usage, a: int, now: int) {
    a in u && (u[a] < now || (u[a] == now && forall b | b in u :: a <= b))
  }

  /** Bounded overtaking: a row that keeps its place, as one last used before the current
      second does, waits for at most the rows in front of it, each once. */
  lemma {:induction false} BoundedOvertaking(u: Usage, picks: seq<Pick>, a: int)
    requires a in u && NonDecreasing(picks) && |picks| > |AheadOf(u, a)|
    requires KeepsPlace(u, a, picks[0].now) && forall p | p in picks :: a !in p.excluded
    ensures |PickAll(u, picks)| == |picks| && Some(a) in PickAll(u, picks)[..|AheadOf(u, a)| + 1]
    decreases |picks|
  {
    var p := picks[0];
    var ranks := Eligible(u, p.excluded);
    assert a in ranks;
    var b := PickedBy(u, p).value;
    var ahead := AheadOf(u, a);
    PickAllLength(u, picks);
    if b != a {
      assert Before(ranks, b, a);
      var w := UsedAfter(u, p);
      assert b in ahead;
      assert AheadOf(w, a) == ahead - {b};
      assert forall q | q in picks[1..] :: q in picks;
      BoundedOvertaking(w, picks[1..], a);
      var turns := PickAll(u, picks)[..|ahead| + 1];
      assert turns == [turns[0]] + PickAll(w, picks[1..])[..|ahead|];
    } else {
      assert PickAll(u, picks)[..|ahead| + 1][0] == Some(a);
    }
  }

  lemma {:induction false} PickAllLength(u: Usage, picks: seq<Pick>)
    ensures |PickAll(u, picks)| == |picks|
    decreases |picks|
  {
    if picks != [] {
      PickAllLength(UsedAfter(u, picks[0]), picks[1..]);
    }
  }

  lemma AheadIsBounded(u: Usage, a: int)
    requires a in u
    ensures |AheadOf(u, a)| < |u|
  {
    assert AheadOf(u, a) <= u.Keys - {a};
    SubsetSize(AheadOf(u, a), u.Keys - {a});
  }

  lemma {:induction false} SubsetSize(a: set<int>, b: set<int>)
    requires a <= b
    ensures |a| <= |b|
    decreases |a|
  {
    if a != {} {
      HasMember(a);
      var x :| x in a;
      SubsetSize(a - {x}, b - {x});
    }
  }

  /** Among n enabled rows, one that keeps its place is picked within the next n picks. */
  lemma PickedWithinN(u: Usage, picks: seq<Pick>, a: int)
    requires a in u && NonDecreasing(picks) && |picks| >= |u|
    requires picks != [] && KeepsPlace(u, a, picks[0].now) && forall p | p in picks :: a !in p.excluded
    ensures |PickAll(u, picks)| == |picks| && Some(a) in PickAll(u, picks)[..|u|]
  {
    AheadIsBounded(u, a);
    PickAllLength(u, picks);
    BoundedOvertaking(u, picks, a);
    assert PickAll(u, picks)[..|u|][..|AheadOf(u, a)| + 1] == PickAll(u, picks)[..|AheadOf(u, a)| + 1];
  }

  /** Within one second the id decides: a row that was used in this second waits, however
      many picks there are, while one with a smaller id that is no later is enabled. */
  lemma {:induction false} SameSecondStarves(u: Usage, picks: seq<Pick>, a: int, b: int, now: int)
    requires a in u && b in u && b < a && u[a] >= now && u[b] <= now
    requires forall p | p in picks :: p.now == now && b !in p.excluded
    ensures Some(a) !in PickAll(u, picks)
    decreases |picks|
  {
    if picks != [] {
      var p := picks[0];
      var ranks := Eligible(u, p.excluded);
      assert b in ranks;
      var c := PickedBy(u, p).value;
      assert Before(ranks, c, b);
      var w := UsedAfter(u, p);
      assert forall q | q in picks[1..] :: q in picks;
      SameSecondStarves(w, picks[1..], a, b, now);
    }
  }

  /** Who gets a turn within one second, over any run of at least n picks among n rows: the
      rows that keep their place, and no others. */
  lemma SameSecondExactly(u: Usage, picks: seq<Pick>, a: int, now: int)
    requires a in u && |picks| >= |u| && forall b | b in u :: u[b] <= now
    requires forall p | p in picks :: p.now == now && p.excluded == {}
    ensures Some(a) in PickAll(u, picks) <==> u[a] < now || forall b | b in u :: a <= b
  {
    if KeepsPlace(u, a, now) {
      AheadIsBounded(u, a);
      assert picks[0] in picks;
      PickedWithinN(u, picks, a);
    } else {
      var b :| b in u && b < a;
      SameSecondStarves(u, picks, a, b, now);
    }
  }

  /** The rows not used since `since`. */
  ghost function Waiting(u: Usage, since: int): set<int> {
    set b | b in u && u[b] < since
  }

  /** With a clock that advances between picks, picks go to different rows until every
      row has had its turn. */
  lemma {:induction false} TurnsAreDistinct(u: Usage, picks: seq<Pick>, since: int)
    requires Increasing(picks) && |picks| <= |Waiting(u, since)|
    requires forall p | p in picks :: p.excluded == {} && p.now >= since
    requires picks != [] ==> forall b | b in u :: u[b] < picks[0].now
    ensures var turns := PickAll(u, picks);
            && (forall t | t in turns :: t.Some? && t.value in Waiting(u, since))
            && forall i, j | 0 <= i < j < |turns| :: turns[i] != turns[j]
    decreases |picks|
  {
    if picks != [] {
      var p := picks[0];
      var waiting := Waiting(u, since);
      HasMember(waiting);
      var x :| x in waiting;
      var ranks := Eligible(u, p.excluded);
      assert x in ranks;
      var c := PickedBy(u, p).value;
      assert Before(ranks, c, x);
      var w := UsedAfter(u, p);
      assert Waiting(w, since) == waiting - {c};
      assert forall q | q in picks[1..] :: q in picks;
      TurnsAreDistinct(w, picks[1..], since);
    }
  }

  lemma ConsecutivePicksAreDistinct(u: Usage, picks: seq<Pick>)
    requires Increasing(picks) && |picks| == |u| && picks != []
    requires (forall p | p in picks :: p.excluded == {}) && forall b | b in u :: u[b] < picks[0].now
    ensures var turns := PickAll(u, picks);
            && |turns| == |u|
            && (forall t | t in turns :: t.Some? && t.value in u)
            && forall i, j | 0 <= i < j < |turns| :: turns[i] != turns[j]
  {
    var waiting := Waiting(u, picks[0].now);
    assert forall b :: b in waiting <==> b in u.Keys;
    assert waiting == u.Keys;
    PickAllLength(u, picks);
    TurnsAreDistinct(u, picks, picks[0].now);
  }
}
