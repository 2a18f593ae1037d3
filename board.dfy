/** The `Board` subclass of goban.py (goban.py:57-128): the order in which it asks the
    board's groups to recompute their liberties after a move, and how it dispatches a move
    to an empty or an occupied point.

    The rule engine it extends (the `go` module: stone creation and removal, grouping,
    `search`, `turn`, `Group.update_liberties`) is not part of this model. Its effects enter
    as parameters and as small abstract actions: `search` is a lookup in the map of stones,
    creating a stone adds it to that map, removing one deletes it, the group list the engine
    holds after either is a parameter, and each `Group.update_liberties` call is recorded in
    a trace of group identities. A group whose update finds it without liberties is killed:
    the points the engine clears when it updates a group are given by a map `kills`. */
module Goban {
  import opened Types

  /** The identity of a `go.Group` object, compared with `==` as goban.py:98 does. */
  type GroupId = nat

  /** A placed stone: its point, its colour and the group the engine put it in. */
  datatype Stone = Stone(point: Point, color: Color, group: GroupId)

  /** How `_play_stone` ends: with the stone it created, or, on an occupied point, with the
      `UnboundLocalError` raised at goban.py:115, because `added_stone` is only assigned on
      the other branch. */
  datatype Outcome = Placed(stone: Stone) | UnboundAddedStone

  /** Everything of the board the model observes. */
  datatype BoardState = BoardState(stones: map<Point, Stone>, groups: seq<GroupId>, updated: seq<GroupId>)

  /** `s` with every occurrence of `g` dropped and the rest in order: the groups the loop at
      goban.py:96-100 updates when `g` is the added stone's group. */
  function Without(s: seq<GroupId>, g: GroupId): seq<GroupId>
  {
    if s == [] then []
    else Without(s[..|s| - 1], g) + (if s[|s| - 1] == g then [] else [s[|s| - 1]])
  }

  /** Dropping `g` removes all of its occurrences and keeps every other group as often as
      it occurs. */
  lemma {:induction false} WithoutCounts(s: seq<GroupId>, g: GroupId)
    ensures multiset(Without(s, g))[g] == 0
    ensures forall h :: h != g ==> multiset(Without(s, g))[h] == multiset(s)[h]
  {
    if s != [] {
      WithoutCounts(s[..|s| - 1], g);
      assert s == s[..|s| - 1] + [s[|s| - 1]];
    }
  }

  /** Dropping `g` keeps the relative order of the rest: it distributes over concatenation. */
  lemma {:induction false} WithoutAppend(a: seq<GroupId>, b: seq<GroupId>, g: GroupId)
    ensures Without(a + b, g) == Without(a, g) + Without(b, g)
  {
    if b == [] {
      assert a + b == a;
    } else {
      WithoutAppend(a, b[..|b| - 1], g);
      assert (a + b)[..|a + b| - 1] == a + b[..|b| - 1];
    }
  }

  /** A sequence without `g` is left as it is. */
  lemma {:induction false} WithoutAbsent(s: seq<GroupId>, g: GroupId)
    requires g !in s
    ensures Without(s, g) == s
  {
    if s != [] {
      WithoutAbsent(s[..|s| - 1], g);
    }
  }

  /** The order in which `update_liberties(added_stone)` calls `Group.update_liberties`
      (goban.py:96-102). Without an added stone: every listed group once, in iteration
      order. With one: every other group first, as often as listed, and the added stone's
      group exactly once, last, even when it is also in the list. */
  function UpdateOrder(groups: seq<GroupId>, added: Option<Stone>): (r: seq<GroupId>)
    ensures added == None ==> r == groups
    ensures added.Some? ==> |r| > 0 && r[|r| - 1] == added.value.group
    ensures added.Some? ==> forall i :: 0 <= i < |r| - 1 ==> r[i] != added.value.group
    ensures added.Some? ==> multiset(r)[added.value.group] == 1
    ensures added.Some? ==> forall h :: h != added.value.group ==> multiset(r)[h] == multiset(groups)[h]
  {
    match added
    case None => groups
    case Some(stone) =>
      var others := Without(groups, stone.group);
      WithoutCounts(groups, stone.group);
      assert forall i :: 0 <= i < |others| ==> others[i] in multiset(others);
      others + [stone.group]
  }

  /** A move that starts a group not yet in the list updates the listed groups in order
      and then the new group. */
  lemma UpdateOrderNewGroup(groups: seq<GroupId>, stone: Stone)
    requires stone.group !in groups
    ensures UpdateOrder(groups, Some(stone)) == groups + [stone.group]
  {
    WithoutAbsent(groups, stone.group);
  }

  /** The points cleared by a run of updates in the order `order`, where updating group `g`
      clears `kills[g]` (nothing when `g` is not in `kills`). */
  function Cleared(order: seq<GroupId>, kills: map<GroupId, set<Point>>): set<Point>
  {
    if order == [] then {}
    else Cleared(order[..|order| - 1], kills)
         + KilledBy(order[|order| - 1], kills)
  }

  /** A point is cleared exactly when the update of some group in the run clears it. */
  lemma {:induction false} ClearedIff(order: seq<GroupId>, kills: map<GroupId, set<Point>>, p: Point)
    ensures p in Cleared(order, kills) <==>
      exists i :: 0 <= i < |order| && order[i] in kills && p in kills[order[i]]
  {
    if order != [] {
      var init := order[..|order| - 1];
      ClearedIff(init, kills, p);
      if p in Cleared(order, kills) && p !in Cleared(init, kills) {
        assert order[|order| - 1] in kills && p in kills[order[|order| - 1]];
      }
      if exists i :: 0 <= i < |order| && order[i] in kills && p in kills[order[i]] {
        var i :| 0 <= i < |order| && order[i] in kills && p in kills[order[i]];
        if i < |order| - 1 {
          assert init[i] == order[i];
        }
      }
    }
  }

  /** The points updating group `g` clears. */
  function KilledBy(g: GroupId, kills: map<GroupId, set<Point>>): set<Point>
  {
    if g in kills then kills[g] else {}
  }

  /** One more update in the run adds the points it clears. */
  lemma ClearedSnoc(order: seq<GroupId>, g: GroupId, kills: map<GroupId, set<Point>>)
    ensures Cleared(order + [g], kills) == Cleared(order, kills) + KilledBy(g, kills)
  {
    assert (order + [g])[..|order + [g]| - 1] == order;
  }

  /** The groups the `for` loop at goban.py:96-100 has updated after going over `s`: all of
      them without an added stone, all but the added stone's group with one. */
  function LoopOrder(s: seq<GroupId>, added: Option<Stone>): seq<GroupId>
  {
    match added
    case None => s
    case Some(stone) => Without(s, stone.group)
  }

  /** Going over one more group extends the loop's run by it, unless it is the added
      stone's group. */
  lemma LoopOrderSnoc(s: seq<GroupId>, x: GroupId, added: Option<Stone>)
    ensures LoopOrder(s + [x], added)
      == LoopOrder(s, added) + (if added.Some? && x == added.value.group then [] else [x])
  {
    assert (s + [x])[..|s + [x]| - 1] == s;
  }

  /** Clearing two sets of points one after the other clears their union. */
  lemma ClearTwice(m: map<Point, Stone>, a: set<Point>, b: set<Point>)
    ensures (m - a) - b == m - (a + b)
  {
    assert ((m - a) - b).Keys == (m - (a + b)).Keys;
  }

  /** The effect of `_play_stone(point)` (goban.py:104-115) on the board. `color` is what
      `turn()` returns and `group` the group the engine puts the new stone in; `regrouped`
      is the engine's group list after it has created or removed the stone, and updating
      group `g` clears the points `kills[g]` (a captured group, goban.py:92-93).

      On an empty point exactly one stone is created there, of that colour, and the
      liberties are then updated with it as `added_stone`: afterwards the stones are the old
      ones and the new one, less those the updates cleared, each unchanged. The new stone
      itself survives unless an update clears its point (suicide). On an occupied point the
      stone there is removed, no stone is created and no liberty is updated, because the
      call at goban.py:115 fails before it starts. */
  function Play(s: BoardState, point: Point, color: Color, group: GroupId, regrouped: seq<GroupId>,
                kills: map<GroupId, set<Point>>)
    : (r: (Outcome, BoardState))
    ensures r.1.groups == regrouped
    ensures point !in s.stones ==>
      && r.0 == Placed(Stone(point, color, group))
      && r.1.updated == s.updated + UpdateOrder(regrouped, Some(r.0.stone))
      && r.1.stones.Keys == (s.stones.Keys + {point}) - Cleared(UpdateOrder(regrouped, Some(r.0.stone)), kills)
      && (point in r.1.stones ==> r.1.stones[point] == r.0.stone)
      && (forall p :: p in r.1.stones && p != point ==> r.1.stones[p] == s.stones[p])
    ensures point in s.stones ==>
      && r.0 == UnboundAddedStone
      && r.1.stones.Keys == s.stones.Keys - {point}
      && (forall p :: p in r.1.stones ==> r.1.stones[p] == s.stones[p])
      && r.1.updated == s.updated
  {
    if point in s.stones then
      (UnboundAddedStone, BoardState(s.stones - {point}, regrouped, s.updated))
    else
      var stone := Stone(point, color, group);
      var order := UpdateOrder(regrouped, Some(stone));
      (Placed(stone), BoardState(s.stones[point := stone] - Cleared(order, kills), regrouped, s.updated + order))
  }

  /** A second move on the point of a first move depends on whether the first stone
      survived its own liberty update. If it did, the second move finds it, removes it and
      ends in the unbound-local error, leaving the stones as the first move's captures left
      them apart from that point. If it was killed (a suicide), the point is empty again and
      the second move places a new stone. */
  lemma PlayTwice(s: BoardState, point: Point, color: Color, group: GroupId,
                  regrouped: seq<GroupId>, kills: map<GroupId, set<Point>>,
                  color2: Color, group2: GroupId, regrouped2: seq<GroupId>,
                  kills2: map<GroupId, set<Point>>)
    requires point !in s.stones
    ensures var killed := Cleared(UpdateOrder(regrouped, Some(Stone(point, color, group))), kills);
      var first := Play(s, point, color, group, regrouped, kills);
      var second := Play(first.1, point, color2, group2, regrouped2, kills2);
      && (point !in killed ==> second.0 == UnboundAddedStone && second.1.stones == s.stones - killed)
      && (point in killed ==> second.0 == Placed(Stone(point, color2, group2)))
  {
    var killed := Cleared(UpdateOrder(regrouped, Some(Stone(point, color, group))), kills);
    var first := Play(s, point, color, group, regrouped, kills);
    var second := Play(first.1, point, color2, group2, regrouped2, kills2);
    if point !in killed {
      assert second.1.stones.Keys == (s.stones - killed).Keys;
    }
  }

  /** A move without captures or suicide, played twice at an empty point, leaves the stones
      exactly as they were before the first move. */
  lemma PlayTwiceRestoresStones(s: BoardState, point: Point, color: Color, group: GroupId,
                                regrouped: seq<GroupId>, color2: Color, group2: GroupId,
                                regrouped2: seq<GroupId>, kills2: map<GroupId, set<Point>>)
    requires point !in s.stones
    ensures var first := Play(s, point, color, group, regrouped, map[]);
      var second := Play(first.1, point, color2, group2, regrouped2, kills2);
      second.0 == UnboundAddedStone && second.1.stones == s.stones
  {
    var order := UpdateOrder(regrouped, Some(Stone(point, color, group)));
    forall p ensures p !in Cleared(order, map[]) {
      ClearedIff(order, map[], p);
    }
    assert Cleared(order, map[]) == {};
    PlayTwice(s, point, color, group, regrouped, map[], color2, group2, regrouped2, kills2);
    assert s.stones - {} == s.stones;
  }

  /** The goban's board: the stones the engine would find with `search`, its list of groups
      and the trace of liberty updates. `board` at goban.py:115 is the module's one board,
      taken here to be `self`. */
  class Board {
    var stones: map<Point, Stone>
    var groups: seq<GroupId>
    /** Every `Group.update_liberties` call so far, oldest first. */
    var updated: seq<GroupId>

    /** Each stone is filed under its own point. */
    predicate Valid()
      reads this
    {
      forall p :: p in stones ==> stones[p].point == p
    }

    function State(): BoardState
      reads this
    {
      BoardState(stones, groups, updated)
    }

    /** `Board()` (goban.py:58-62): the engine's board starts empty, with no groups and no
        liberty update yet. */
    constructor ()
      ensures Valid()
      ensures stones == map[] && groups == [] && updated == []
    {
      stones, groups, updated := map[], [], [];
    }

    /** `search(point=...)`: the stone on `point`, if any. */
    function Search(point: Point): (r: Option<Stone>)
      reads this
      requires Valid()
      ensures r.Some? <==> point in stones
      ensures r.Some? ==> r.value.point == point && stones[point] == r.value
    {
      if point in stones then Some(stones[point]) else None
    }

    /** `group.update_liberties()`: one more entry of the trace, and the points `cleared`
        of a group found without liberties are emptied. */
    method UpdateGroupLiberties(g: GroupId, cleared: set<Point>)
      requires Valid()
      modifies this`updated, this`stones
      ensures Valid()
      ensures updated == old(updated) + [g]
      ensures stones == old(stones) - cleared
    {
      updated := updated + [g];
      stones := stones - cleared;
    }

    /** The `for` loop of `update_liberties(added_stone)` (goban.py:96-100): every listed
        group but the added stone's, in list order, each clearing what it kills. */
    method UpdateOtherGroups(added: Option<Stone>, kills: map<GroupId, set<Point>>)
      requires Valid()
      modifies this`updated, this`stones
      ensures Valid()
      ensures updated == old(updated) + LoopOrder(groups, added)
      ensures stones == old(stones) - Cleared(LoopOrder(groups, added), kills)
    {
      var i := 0;
      while i < |groups|
        invariant 0 <= i <= |groups|
        invariant Valid()
        invariant updated == old(updated) + LoopOrder(groups[..i], added)
        invariant stones == old(stones) - Cleared(LoopOrder(groups[..i], added), kills)
      {
        var group := groups[i];
        assert groups[..i + 1] == groups[..i] + [group];
        LoopOrderSnoc(groups[..i], group, added);
        if added.Some? && group == added.value.group {
          assert LoopOrder(groups[..i + 1], added) == LoopOrder(groups[..i], added);
          i := i + 1;
          continue;
        }
        ClearedSnoc(LoopOrder(groups[..i], added), group, kills);
        ClearTwice(old(stones), Cleared(LoopOrder(groups[..i], added), kills), KilledBy(group, kills));
        UpdateGroupLiberties(group, KilledBy(group, kills));
        i := i + 1;
      }
      assert groups[..i] == groups;
    }

    /** `update_liberties(added_stone)` (goban.py:89-102), where updating group `g` clears
        `kills[g]`. */
    method UpdateLiberties(added: Option<Stone>, kills: map<GroupId, set<Point>>)
      requires Valid()
      modifies this`updated, this`stones
      ensures Valid()
      ensures updated == old(updated) + UpdateOrder(groups, added)
      ensures stones == old(stones) - Cleared(UpdateOrder(groups, added), kills)
    {
      UpdateOtherGroups(added, kills);
      if added.Some? {
        var g := added.value.group;
        ClearedSnoc(LoopOrder(groups, added), g, kills);
        ClearTwice(old(stones), Cleared(LoopOrder(groups, added), kills), KilledBy(g, kills));
        UpdateGroupLiberties(g, KilledBy(g, kills));
      }
    }

    /** Creating `go.Stone(board, point, color)`: the point is filed with the new stone and
        the engine's group list becomes `regrouped`. */
    method CreateStone(point: Point, color: Color, group: GroupId, regrouped: seq<GroupId>)
      returns (stone: Stone)
      requires Valid()
      modifies this`stones, this`groups
      ensures Valid()
      ensures stone == Stone(point, color, group)
      ensures stones == old(stones)[point := stone] && groups == regrouped
    {
      stone := Stone(point, color, group);
      stones := stones[point := stone];
      groups := regrouped;
    }

    /** `stone.remove()`: its point is empty again and the engine's group list becomes
        `regrouped`. */
    method RemoveStone(stone: Stone, regrouped: seq<GroupId>)
      requires Valid() && stone.point in stones
      modifies this`stones, this`groups
      ensures Valid()
      ensures stones == old(stones) - {stone.point} && groups == regrouped
    {
      stones := stones - {stone.point};
      groups := regrouped;
    }

    /** `_play_stone(point)` (goban.py:104-115). Afterwards `search(point)` finds the new
        stone when it survived its liberty update, and nothing after the error on an
        occupied point. */
    method PlayStone(point: Point, color: Color, group: GroupId, regrouped: seq<GroupId>,
                     kills: map<GroupId, set<Point>>)
      returns (outcome: Outcome)
      requires Valid()
      modifies this
      ensures Valid()
      ensures (outcome, State()) == Play(old(State()), point, color, group, regrouped, kills)
      ensures outcome.Placed? && point in stones ==> Search(point) == Some(outcome.stone)
      ensures outcome == UnboundAddedStone ==> Search(point) == None
    {
      var found := Search(point);
      if found.Some? {
        RemoveStone(found.value, regrouped);
        outcome := UnboundAddedStone;
      } else {
        var added := CreateStone(point, color, group, regrouped);
        UpdateLiberties(Some(added), kills);
        outcome := Placed(added);
      }
    }

    /** `_random_play_stone(point)` (goban.py:117-128). `draws` are the successive results
        of `random()`; at most four are consumed. Each axis gets an offset of -1, 0 or 1,
        but the move is then played at `point` itself, so the board ends exactly as
        `_play_stone(point)` leaves it, whatever the draws. */
    method RandomPlayStone(point: Point, draws: seq<real>, color: Color, group: GroupId,
                           regrouped: seq<GroupId>, kills: map<GroupId, set<Point>>)
      returns (outcome: Outcome, offset: seq<int>)
      requires Valid()
      requires |draws| >= 4
      modifies this
      ensures Valid()
      ensures |offset| == 2 && forall a :: 0 <= a < 2 ==> offset[a] in {-1, 0, 1}
      ensures (outcome, State()) == Play(old(State()), point, color, group, regrouped, kills)
    {
      offset := [0, 0];
      var used := 0;
      for a := 0 to 2
        invariant |offset| == 2 && used <= 2 * a
        invariant forall b :: 0 <= b < a ==> offset[b] in {-1, 0, 1}
        invariant forall b :: a <= b < 2 ==> offset[b] == 0
      {
        if draws[used] < 0.5 {
          offset := offset[a := offset[a] + (if draws[used + 1] < 0.5 then 1 else -1)];
          used := used + 2;
        } else {
          used := used + 1;
        }
      }
      outcome := PlayStone(point, color, group, regrouped, kills);
    }
  }
}
