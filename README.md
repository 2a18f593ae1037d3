# Goban for B.U.G. — a verified model of goban.py

goban.py is the pygame front end of Better Updated Go. It subclasses the `Stone` and
`Board` classes of the `go` rule engine. It converts between grid points and screen
pixels. It turns left clicks inside the board's outline into moves. It fixes the order
in which the board's groups recompute their liberties after a move. It also decides what a
move on an empty or an occupied point does. This project models those parts in Dafny and
proves their properties:

- `types.dfy`, module `Types`: points, stone colours and an option type.
- `geometry.dfy`, module `Geometry`: `Stone.points_to_coords` and `Stone.coords_to_points`.
  Also the pygame `Rect` operations the board uses (`inflate_ip`, `collidepoint`), the click
  rectangle, the drawn grid cells and the event loop's click-to-point step.
  Grid point `p` is drawn at pixel column `5 + 40p` and pixel row `105 + 40p`.
  A pixel snaps back to the nearest intersection.
  The click rectangle is `[35, 775) x [135, 875)`. The drawn lines are those of points 1 to 19.
  So every accepted click lands on a point with both coordinates in 1..19, never on point 0,
  and every such point can be clicked.
- `board.dfy`, module `Goban`: `Board.update_liberties`, `Board._play_stone` and
  `Board._random_play_stone`, as methods of a class `Board`. The class holds the stones as
  `search` sees them, the engine's list of groups, and a trace of every
  `Group.update_liberties` call. Each method is proved against the pure function
  `UpdateOrder` or `Play`. The properties of the liberty-update order are proved about
  `UpdateOrder`: the other groups go first, and the added stone's group goes exactly once, last.

The `go` engine is not part of this model. Its operations are abstract:
- `search` is a lookup in a map from points to stones.
- Creating a stone files it under its point.
- Removing a stone deletes that entry.
- The engine's group list after creating or removing a stone is a parameter.
- What `turn()` returns, and the group the engine puts a new stone in, are parameters.
- A `Group.update_liberties` call is one entry appended to the trace. It may also kill
  the group when it has no liberties left; the points the engine clears when it updates a
  group are a parameter, the map `kills`. Captures of other groups and a suicide of the new
  stone both appear this way, in the order of the trace.

`coords_to_points` divides by the float `40.0` and calls `round`. Here that is integer
nearest rounding with Euclidean `/` and `%`. The two agree on every pixel a window reports:
an exact half is representable as a float, and every other quotient is at least 1/40 away
from a half. Rounding of exact halves differs between Python 2 (away from zero) and
Python 3 (to even), so the mode is a parameter, `Geometry.Rounding`. Ties fall on pixel
columns `25 (mod 40)` and on pixel rows `5 (mod 40)`. The click rectangle and nearest-point
results hold under both modes.

On an occupied point, `_play_stone` removes the stone that is there and creates none. It
then evaluates `board.update_liberties(added_stone)` with `added_stone` never assigned, which
raises `UnboundLocalError` before any liberty is updated. The model returns the outcome
`UnboundAddedStone` there. The move is not rejected, not ignored and does not pass the turn:
the model follows the code as written.

`_random_play_stone` draws offsets of -1, 0 or 1 per axis and never uses them. Its effect on
the board is that of `_play_stone` at the original point, whatever the draws.

## Model

| member | source | states |
|---|---|---|
| Geometry.BreakTie | goban.py:46-47 | rounding an exact half gives one of its two neighbours: the even one under Python 3, the one away from zero under Python 2 |
| Geometry.PixelToAxis | goban.py:46-47 | the index a pixel snaps to is within 20 px of it, strictly within unless the pixel is exactly halfway, and no other index is nearer |
| Geometry.PixelToAxisMonotone | goban.py:46-47 | snapping never reverses the order of two pixels |
| Geometry.CoordsToPointsNearest | goban.py:45-48 | `coords_to_points` returns the intersection at the least Euclidean distance from the pixel |
| Geometry.PointsToCoords | goban.py:51-54 | the pixel of a point lies on the lattice of intersections, and `coords_to_points` takes it back to the same point under either rounding mode |
| Geometry.CoordsToPoints | goban.py:45-48 | the point returned is within 20 px of the pixel on each axis |
| Geometry.PointsToCoordsIncreasing | goban.py:51-54 | `points_to_coords` is strictly increasing in each coordinate |
| Geometry.CoordsRoundTrip | goban.py:45-54 | `coords_to_points(points_to_coords(x, y)) == (x, y)` for every integer point, under both rounding modes |
| Geometry.PointsToCoordsInjective | goban.py:51-54 | distinct grid points are drawn at distinct pixels |
| Geometry.Rect.Contains | goban.py:145 | `collidepoint` accepts a pixel only in a rectangle of positive width and height |
| Geometry.AdjacentRectsDisjoint | goban.py:145 | with the right and bottom edges left out, a rectangle shares no pixel with the same-sized one right after it across or down |
| Geometry.Rect.Inflate | goban.py:77 | `inflate_ip` grows the size by `dx` and `dy`, keeps the centre for even amounts, and a non-negative inflation contains the original rectangle |
| Geometry.TruncHalf | goban.py:77 | the halving `inflate_ip` uses truncates toward zero, for either sign |
| Geometry.Outline | goban.py:61 | the drawn outline after `inflate_ip(20, 20)` accepts exactly the pixels of `[35, 775) x [135, 875)` |
| Geometry.GridCell | goban.py:78-81 | each drawn cell runs from the pixel of point `(i + 1, j + 1)` to that of `(i + 2, j + 2)`, so the lines are those of points 1 to 19 |
| Geometry.ClickLandsOnBoard | goban.py:145-146 | every pixel in the click rectangle snaps to a point with both coordinates in 1..19, under either rounding mode |
| Geometry.BoardPointsInOutline | goban.py:145 | the pixel of every point with coordinates in 1..19 lies in the click rectangle |
| Geometry.Click | goban.py:144-147 | a mouse event yields a point exactly when it is button 1 inside `[35, 775) x [135, 875)`; the point lies in 1..19 on both axes and within 20 px of the click |
| Geometry.EveryBoardPointClickable | goban.py:144-147 | a left click on the pixel of any point in 1..19 on both axes selects exactly that point |
| Goban.WithoutCounts | goban.py:96-100 | skipping the added stone's group drops every occurrence of it and keeps every other group as often as it is listed |
| Goban.WithoutAppend | goban.py:96-100 | skipping a group keeps the iteration order of the others (it distributes over concatenation) |
| Goban.UpdateOrder | goban.py:96-102 | without an added stone, the groups are updated once each in list order; with one, the added stone's group is updated exactly once, last, every other group before it as often as listed |
| Goban.UpdateOrderNewGroup | goban.py:96-102 | when the added stone's group is not in the list, the listed groups are updated in order and then the new group |
| Goban.ClearedIff | goban.py:92-102 | a point is cleared by a run of liberty updates exactly when the update of some group in the run kills it |
| Goban.Play | goban.py:104-115 | on an empty point exactly one stone is created there with the colour of `turn()` and the liberties are updated with it as `added_stone`; the stones afterwards are the old ones and the new one less those the updates kill, each unchanged, and the new stone survives unless its point is killed (suicide); on an occupied point that stone is removed, none is created, no liberty is updated, and the outcome is the unbound-local error |
| Goban.PlayTwice | goban.py:110-115 | a second move on the point of a first move removes the first stone and ends in the error outcome if that stone survived, leaving the stones as the first move's captures left them apart from that point; if the first stone was killed, the second move places a new stone |
| Goban.PlayTwiceRestoresStones | goban.py:110-115 | when the first move kills nothing, a second move on the same point removes its stone again and the stones are as before the first move |
| Goban.Board.constructor | goban.py:58-62 | a new board has no stones, no groups and no liberty update yet |
| Goban.Board.UpdateGroupLiberties | goban.py:100-102 | one `Group.update_liberties` call appends that group to the trace and empties the points it kills |
| Goban.Board.UpdateOtherGroups | goban.py:96-100 | the loop updates every listed group but the added stone's, in list order, and clears the points those updates kill |
| Goban.Board.UpdateLiberties | goban.py:89-102 | the trace grows by exactly `UpdateOrder(groups, added_stone)` and the stones lose exactly the points those updates kill |
| Goban.Board.CreateStone | goban.py:114 | the new stone has the given point, colour and group, is filed under its point, and every other point keeps its stone |
| Goban.Board.RemoveStone | goban.py:111-112 | the stone's point becomes empty and every other point keeps its stone |
| Goban.Board.PlayStone | goban.py:104-115 | the outcome and the new board are those given by `Play`; afterwards `search(point)` finds the new stone if it survived, and nothing after the error on an occupied point |
| Goban.Board.RandomPlayStone | goban.py:117-128 | each axis offset is -1, 0 or 1, and the outcome and new board are those `Play` gives for the unchanged point, whatever the draws |

## Left out

- Drawing, blitting, fonts, display updates and window setup (goban.py:31-42, 64-87 apart from the grid geometry, 151-162): rendering with no behaviour beyond the geometry above.
- The event loop `main` (goban.py:131-148): event polling, sleeping, quitting and the pass key are I/O. Only its click-to-point step is modelled, as `Geometry.Click`.
- The `go` engine (`Group.update_liberties`, `Stone.__init__` and `Stone.remove` of the base class, `Board.search`, `turn`, `pass_go`, `play_stone`, `groups`, `next`) lives in the `go` module, which this model does not cover. Its results are parameters, or abstract actions on the model's state, as described above.
- Goban.Board.CreateStone, Goban.Board.RemoveStone: the engine's grouping, merging and removal of emptied groups are not modelled. The group list afterwards is taken as a parameter.
- Goban.Play: the turn state `turn()` may change is not modelled. The colour it returns is a parameter.
- Goban.Play: which groups a liberty update kills is decided by the engine and is the parameter `kills`. The model does not derive it from the board.
- Goban.Board.UpdateLiberties: the group list is taken not to change while the loop at goban.py:96 runs. If the engine dropped a killed group from `self.groups` during the loop, Python's list iterator would skip the group after it, and "every other group as often as listed" would not hold.
- Goban.Board.constructor: the engine's own initial state (goban.py:60) is taken to be an empty board with no groups.
- The truthiness tests `if stone:` and `if added_stone:` are taken to mean "is not `None`". Stone objects are assumed not to define their own truth value.
- Floating-point division and `round` in `coords_to_points` are replaced by exact integer arithmetic. This agrees with the floats on every pixel a window reports, but is not claimed for pixels beyond 2^50.
- `random()` is not modelled. Its successive results are the parameter `draws`, and at most four are used.
- The module-level globals `screen`, `background` and `board`. `_play_stone` calls the global `board` rather than `self` (goban.py:115). The model takes them to be the same board.
