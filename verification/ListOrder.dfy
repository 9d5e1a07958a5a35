/**
 Reordering a whole list one neighbour at a time: `movedIds`, and what a sequence of such moves can reach.
 */
module ListOrder {
  import opened Common

  datatype Direction = Up | Down

  /** `indexOf`: the first position of the id, or -1. */
  function IndexOf(ids: seq<string>, id: string): (i: int)
    ensures -1 <= i < |ids|
    ensures i == -1 <==> id !in ids
    ensures i >= 0 ==> ids[i] == id && forall j :: 0 <= j < i ==> ids[j] != id
  {
    if ids == [] then -1
    else if ids[0] == id then 0
    else
      var rest := IndexOf(ids[1..], id);
      if rest == -1 then -1 else rest + 1
  }

  function Target(from: int, direction: Direction): int { if direction == Up then from - 1 else from + 1 }

  function Swapped<T>(s: seq<T>, k: nat): (t: seq<T>)
    requires k + 1 < |s|
    ensures |t| == |s| && t[k] == s[k + 1] && t[k + 1] == s[k]
    ensures forall i :: 0 <= i < |s| && i != k && i != k + 1 ==> t[i] == s[i]
  {
    s[k := s[k + 1]][k + 1 := s[k]]
  }

  /** The list with two neighbours exchanged, or nothing. */
  function Moved(ids: seq<string>, id: string, direction: Direction): Option<seq<string>> {
    var from := IndexOf(ids, id);
    var to := Target(from, direction);
    if from == -1 || to < 0 || to >= |ids| then None
    else Some(Swapped(ids, if direction == Up then to else from))
  }

  method MovedIds(ids: seq<string>, id: string, direction: Direction) returns (result: Option<seq<string>>)
    ensures result == Moved(ids, id, direction)
  {
    var from := IndexOf(ids, id);
    var to := if direction == Up then from - 1 else from + 1;
    if from == -1 || to < 0 || to >= |ids| {
      return None;
    }
    var moved := new string[|ids|](i requires 0 <= i < |ids| => ids[i]);
    moved[from] := ids[to];
    moved[to] := id;
    assert moved[..] == Moved(ids, id, direction).value;
    return Some(moved[..]);
  }

  // --- One move ---------------------------------------------------------------------------------

  predicate Distinct(ids: seq<string>) { forall i, j | 0 <= i < j < |ids| :: ids[i] != ids[j] }

  /** `null` exactly at the end the move points to, or for an id that is not in the list. */
  lemma NullExactly(ids: seq<string>, id: string, direction: Direction)
    ensures Moved(ids, id, direction).None? <==>
              id !in ids || (direction == Up && ids[0] == id) || (direction == Down && IndexOf(ids, id) == |ids| - 1)
  {
  }

  lemma SwapPermutes<T>(s: seq<T>, k: nat)
    requires k + 1 < |s|
    ensures multiset(Swapped(s, k)) == multiset(s)
  {
    var a, b := s[..k], s[k + 2..];
    assert s == a + [s[k], s[k + 1]] + b;
    assert Swapped(s, k) == a + [s[k + 1], s[k]] + b;
  }

  lemma PermutationKeepsDistinct(s: seq<string>, t: seq<string>)
    requires Distinct(s) && multiset(t) == multiset(s)
    ensures Distinct(t) && |t| == |s|
    ensures forall x :: x in t <==> x in s
  {
    DistinctCounts(s);
    DistinctCounts(t);
    assert |multiset(t)| == |t| && |multiset(s)| == |s|;
    forall x
      ensures x in t <==> x in s
    {
      assert x in multiset(t) <==> x in multiset(s);
    }
  }

  lemma {:induction false} DistinctCounts(s: seq<string>)
    ensures Distinct(s) <==> forall x :: multiset(s)[x] <= 1
  {
    if s == [] {
    } else {
      DistinctCounts(s[1..]);
      assert s == [s[0]] + s[1..];
      assert s[0] in s[1..] <==> multiset(s[1..])[s[0]] >= 1;
      assert Distinct(s) <==> s[0] !in s[1..] && Distinct(s[1..]);
      assert forall x :: multiset(s)[x] == multiset(s[1..])[x] + (if x == s[0] then 1 else 0);
    }
  }

  /** A move keeps the set whole, and up and down undo each other. */
  lemma UpAndDownUndo(ids: seq<string>, id: string, direction: Direction)
    requires Distinct(ids) && Moved(ids, id, direction).Some?
    ensures var moved := Moved(ids, id, direction).value;
            && multiset(moved) == multiset(ids) && Distinct(moved)
            && Moved(moved, id, if direction == Up then Down else Up) == Some(ids)
  {
    var from := IndexOf(ids, id);
    var k := if direction == Up then from - 1 else from;
    var moved := Moved(ids, id, direction).value;
    SwapPermutes(ids, k);
    PermutationKeepsDistinct(ids, moved);
    var to := Target(from, direction);
    assert moved[to] == id;
    IndexIs(moved, id, to);
    assert Swapped(moved, k) == ids;
  }

  lemma IndexIs(ids: seq<string>, id: string, i: nat)
    requires Distinct(ids) && i < |ids| && ids[i] == id
    ensures IndexOf(ids, id) == i
  {
  }

  /** Moving an item up is moving its neighbour down. */
  lemma UpIsNeighbourDown(ids: seq<string>, i: nat)
    requires Distinct(ids) && 0 < i < |ids|
    ensures Moved(ids, ids[i], Up) == Moved(ids, ids[i - 1], Down)
  {
    IndexIs(ids, ids[i], i);
    IndexIs(ids, ids[i - 1], i - 1);
  }

  // --- Inversions -------------------------------------------------------------------------------

  function CountGreater(r: seq<int>, x: int): nat {
    if r == [] then 0 else CountGreater(r[..|r| - 1], x) + (if r[|r| - 1] > x then 1 else 0)
  }

  /** Pairs out of order. */
  function Inversions(r: seq<int>): nat {
    if r == [] then 0 else Inversions(r[..|r| - 1]) + CountGreater(r[..|r| - 1], r[|r| - 1])
  }

  lemma {:induction false} CountGreaterSwap(r: seq<int>, k: nat, x: int)
    requires k + 1 < |r|
    ensures CountGreater(Swapped(r, k), x) == CountGreater(r, x)
  {
    var n := |r| - 1;
    var t := Swapped(r, k);
    if k + 1 < n {
      assert t[..n] == Swapped(r[..n], k);
      CountGreaterSwap(r[..n], k, x);
    } else {
      assert t[..n][..n - 1] == r[..n][..n - 1];
    }
  }

  /** Exchanging two neighbours changes the number of inversions by exactly one, down when they were out of order. */
  lemma {:induction false} SwapChangesByOne(r: seq<int>, k: nat)
    requires k + 1 < |r| && r[k] != r[k + 1]
    ensures Inversions(Swapped(r, k)) == Inversions(r) + (if r[k] > r[k + 1] then -1 else 1)
  {
    var n := |r| - 1;
    var t := Swapped(r, k);
    if k + 1 < n {
      assert t[..n] == Swapped(r[..n], k);
      SwapChangesByOne(r[..n], k);
      CountGreaterSwap(r[..n], k, r[n]);
    } else {
      var base := r[..n - 1];
      assert t[..n][..n - 1] == base && r[..n][..n - 1] == base;
      assert t[..n][n - 1] == r[n] && r[..n][n - 1] == r[n - 1];
    }
  }

  lemma {:induction false} NoneGreater(r: seq<int>, x: int)
    requires forall i :: 0 <= i < |r| ==> r[i] <= x
    ensures CountGreater(r, x) == 0
  {
    if r == [] {
    } else {
      NoneGreater(r[..|r| - 1], x);
    }
  }

  predicate Ascending(r: seq<int>) { forall i | 0 <= i < |r| - 1 :: r[i] < r[i + 1] }

  /** No neighbours out of order means no pair is. */
  lemma {:induction false} AscendingHasNone(r: seq<int>)
    requires Ascending(r)
    ensures Inversions(r) == 0
    ensures forall i, j :: 0 <= i < j < |r| ==> r[i] < r[j]
  {
    if r == [] {
    } else {
      AscendingHasNone(r[..|r| - 1]);
      NoneGreater(r[..|r| - 1], r[|r| - 1]);
    }
  }

  // --- Reaching an order ------------------------------------------------------------------------

  /** Where each id of the list stands in the goal. */
  function Ranks(ids: seq<string>, goal: seq<string>): (r: seq<int>)
    ensures |r| == |ids| && forall i :: 0 <= i < |ids| ==> r[i] == IndexOf(goal, ids[i])
  {
    seq(|ids|, i requires 0 <= i < |ids| => IndexOf(goal, ids[i]))
  }

  ghost predicate SameSet(ids: seq<string>, goal: seq<string>) {
    Distinct(ids) && Distinct(goal) && multiset(ids) == multiset(goal)
  }

  function Distance(ids: seq<string>, goal: seq<string>): nat { Inversions(Ranks(ids, goal)) }

  lemma RanksDiffer(ids: seq<string>, goal: seq<string>, i: nat, j: nat)
    requires SameSet(ids, goal) && i < j < |ids|
    ensures Ranks(ids, goal)[i] != Ranks(ids, goal)[j]
  {
    PermutationKeepsDistinct(ids, goal);
    assert ids[i] in ids && ids[j] in ids;
  }

  lemma RanksSwap(ids: seq<string>, goal: seq<string>, k: nat)
    requires k + 1 < |ids|
    ensures Ranks(Swapped(ids, k), goal) == Swapped(Ranks(ids, goal), k)
  {
  }

  lemma SwapChangesDistance(ids: seq<string>, goal: seq<string>, k: nat)
    requires SameSet(ids, goal) && k + 1 < |ids|
    ensures SameSet(Swapped(ids, k), goal)
    ensures Ranks(ids, goal)[k] != Ranks(ids, goal)[k + 1]
    ensures Distance(Swapped(ids, k), goal)
              == Distance(ids, goal) + (if Ranks(ids, goal)[k] > Ranks(ids, goal)[k + 1] then -1 else 1)
  {
    SwapPermutes(ids, k);
    PermutationKeepsDistinct(ids, Swapped(ids, k));
    RanksDiffer(ids, goal, k, k + 1);
    RanksSwap(ids, goal, k);
    SwapChangesByOne(Ranks(ids, goal), k);
  }

  /** Every move changes the distance to any order by exactly one. */
  lemma MoveChangesByOne(ids: seq<string>, goal: seq<string>, id: string, direction: Direction)
    requires SameSet(ids, goal) && Moved(ids, id, direction).Some?
    ensures var moved := Moved(ids, id, direction).value;
            && SameSet(moved, goal)
            && (Distance(moved, goal) == Distance(ids, goal) + 1 || Distance(moved, goal) + 1 == Distance(ids, goal))
  {
    var from := IndexOf(ids, id);
    SwapChangesDistance(ids, goal, if direction == Up then from - 1 else from);
  }

  /** Distance zero is the goal itself. */
  lemma ZeroIsGoal(ids: seq<string>, goal: seq<string>)
    requires SameSet(ids, goal)
    ensures Distance(ids, goal) == 0 <==> ids == goal
  {
    AscendingIsGoal(ids, goal);
    forall i, j | 0 <= i < j < |ids|
      ensures Ranks(ids, goal)[i] != Ranks(ids, goal)[j]
    {
      RanksDiffer(ids, goal, i, j);
    }
    NoneExactlyAscending(Ranks(ids, goal));
  }

  lemma NoneExactlyAscending(r: seq<int>)
    requires forall i, j :: 0 <= i < j < |r| ==> r[i] != r[j]
    ensures Inversions(r) == 0 <==> Ascending(r)
  {
    if Ascending(r) {
      AscendingHasNone(r);
    } else {
      var k :| 0 <= k < |r| - 1 && r[k] >= r[k + 1];
      SwapChangesByOne(r, k);
    }
  }

  lemma AscendingIsGoal(ids: seq<string>, goal: seq<string>)
    requires SameSet(ids, goal)
    ensures Ascending(Ranks(ids, goal)) <==> ids == goal
  {
    PermutationKeepsDistinct(ids, goal);
    var r := Ranks(ids, goal);
    if ids == goal {
      forall i | 0 <= i < |ids|
        ensures r[i] == i
      {
        IndexIs(goal, ids[i], i);
      }
    }
    if Ascending(r) {
      assert forall i :: 0 <= i < |ids| ==> ids[i] in ids && 0 <= r[i] < |ids|;
      AscendingIsIdentity(r);
      assert forall i :: 0 <= i < |ids| ==> goal[i] == ids[i];
    }
  }

  lemma AscendingIsIdentity(r: seq<int>)
    requires Ascending(r) && forall i :: 0 <= i < |r| ==> 0 <= r[i] < |r|
    ensures forall i :: 0 <= i < |r| ==> r[i] == i
  {
    AscendingAtLeast(r, |r|);
    forall i | 0 <= i < |r|
      ensures r[i] == i
    {
      AscendingRoom(r, i);
    }
  }

  lemma {:induction false} AscendingAtLeast(r: seq<int>, n: nat)
    requires n <= |r| && Ascending(r) && (|r| > 0 ==> 0 <= r[0])
    ensures forall i :: 0 <= i < n ==> r[i] >= i
  {
    if n > 1 {
      AscendingAtLeast(r, n - 1);
      assert r[n - 2] < r[n - 2 + 1];
    }
  }

  lemma {:induction false} AscendingRoom(r: seq<int>, i: nat)
    requires i < |r| && Ascending(r)
    ensures r[i] + (|r| - 1 - i) <= r[|r| - 1]
    decreases |r| - i
  {
    if i + 1 < |r| {
      AscendingRoom(r, i + 1);
    }
  }

  datatype Move = Move(id: string, direction: Direction)

  /** A sequence of moves none of which is refused. */
  function Applied(ids: seq<string>, moves: seq<Move>): Option<seq<string>>
    decreases |moves|
  {
    if moves == [] then Some(ids)
    else
      match Moved(ids, moves[0].id, moves[0].direction)
      case None => None
      case Some(next) => Applied(next, moves[1..])
  }

  /** No fewer moves than inversions will do. */
  lemma {:induction false} NoFewerMoves(ids: seq<string>, goal: seq<string>, moves: seq<Move>)
    requires SameSet(ids, goal) && Applied(ids, moves) == Some(goal)
    ensures |moves| >= Distance(ids, goal)
    decreases |moves|
  {
    if moves == [] {
      ZeroIsGoal(ids, goal);
    } else {
      MoveChangesByOne(ids, goal, moves[0].id, moves[0].direction);
      NoFewerMoves(Moved(ids, moves[0].id, moves[0].direction).value, goal, moves[1..]);
    }
  }

  /** Unless the list is the goal already, some item moved down brings it one nearer. */
  lemma OneMoveNearer(ids: seq<string>, goal: seq<string>) returns (k: nat)
    requires SameSet(ids, goal) && ids != goal
    ensures k < |ids| && Moved(ids, ids[k], Down).Some?
    ensures var next := Moved(ids, ids[k], Down).value;
            SameSet(next, goal) && Distance(next, goal) + 1 == Distance(ids, goal)
  {
    ZeroIsGoal(ids, goal);
    k := Descent(Ranks(ids, goal));
    SwapChangesDistance(ids, goal, k);
    IndexIs(ids, ids[k], k);
  }

  /** And exactly that many always suffice: every order of the same ids can be reached. */
  lemma {:induction false} EveryOrderReachable(ids: seq<string>, goal: seq<string>) returns (moves: seq<Move>)
    requires SameSet(ids, goal)
    ensures |moves| == Distance(ids, goal) && Applied(ids, moves) == Some(goal)
    decreases Distance(ids, goal)
  {
    moves := [];
    if ids == goal {
      ZeroIsGoal(ids, goal);
    } else {
      var k := OneMoveNearer(ids, goal);
      var rest := EveryOrderReachable(Moved(ids, ids[k], Down).value, goal);
      moves := [Move(ids[k], Down)] + rest;
      assert moves[1..] == rest;
    }
  }

  lemma Descent(r: seq<int>) returns (k: nat)
    requires Inversions(r) > 0
    ensures k + 1 < |r| && r[k] >= r[k + 1]
  {
    if Ascending(r) {
      AscendingHasNone(r);
    }
    k :| 0 <= k < |r| - 1 && r[k] >= r[k + 1];
  }
}
