/** The map's rooms: which cells a viewport joins, and what the incremental events leave on each viewer's map. */
module LiveMap {
  import opened Common

  type VehicleId = string
  type SocketId = string

  /** Positions in ten-thousandths of a degree; a cell is a tenth of a degree wide. */
  const CELL_SIZE := 1000
  const MAX_CELLS := 400

  datatype Position = Position(lat: int, lng: int)

  datatype Cell = Cell(lat: int, lng: int)

  datatype Viewport = Viewport(north: int, south: int, east: int, west: int)

  /** The cell index rounds down, below zero too. */
  function CellOf(p: Position): Cell {
    Cell(p.lat / CELL_SIZE, p.lng / CELL_SIZE)
  }

  // ---- viewports ----------------------------------------------------------------------

  function Rows(vp: Viewport): int {
    Max(0, vp.north / CELL_SIZE - vp.south / CELL_SIZE + 1)
  }

  function Columns(vp: Viewport): int {
    Max(0, vp.east / CELL_SIZE - vp.west / CELL_SIZE + 1)
  }

  /** The `k`-th cell of a viewport, row by row from its south-west corner. */
  function CellAt(vp: Viewport, k: nat): Cell
    requires Columns(vp) > 0
  {
    Cell(vp.south / CELL_SIZE + k / Columns(vp), vp.west / CELL_SIZE + k % Columns(vp))
  }

  ghost predicate RowMajor(vp: Viewport, cells: seq<Cell>) {
    cells != [] ==> Columns(vp) > 0 && forall k :: 0 <= k < |cells| ==> cells[k] == CellAt(vp, k)
  }

  lemma RowMajorNext(vp: Viewport, cells: seq<Cell>, row: nat, column: nat)
    requires RowMajor(vp, cells) && column < Columns(vp) && |cells| == row * Columns(vp) + column
    ensures RowMajor(vp, cells + [Cell(vp.south / CELL_SIZE + row, vp.west / CELL_SIZE + column)])
  {
    DivUnique(row * Columns(vp) + column, Columns(vp), row, column);
  }

  /** The first MAX_CELLS cells that a viewport touches, row by row, and all of them when they are no more. */
  method CellsForViewport(vp: Viewport) returns (cells: seq<Cell>)
    ensures |cells| == Min(400, Rows(vp) * Columns(vp)) && RowMajor(vp, cells)
  {
    cells := [];
    var latStart, latEnd := vp.south / CELL_SIZE, vp.north / CELL_SIZE;
    var lngStart, lngEnd := vp.west / CELL_SIZE, vp.east / CELL_SIZE;
    ghost var columns := Columns(vp);
    var la := latStart;
    while la <= latEnd
      invariant latStart <= la <= Max(latStart, latEnd + 1)
      invariant |cells| == (la - latStart) * columns && |cells| < MAX_CELLS && RowMajor(vp, cells)
    {
      var ln := lngStart;
      while ln <= lngEnd
        invariant lngStart <= ln <= Max(lngStart, lngEnd + 1)
        invariant |cells| == (la - latStart) * columns + (ln - lngStart) && |cells| < MAX_CELLS && RowMajor(vp, cells)
      {
        RowMajorNext(vp, cells, la - latStart, ln - lngStart);
        cells := cells + [Cell(la, ln)];
        ln := ln + 1;
        if |cells| >= MAX_CELLS {
          CellsWithin(la - latStart, ln - lngStart, Rows(vp), columns);
          return;
        }
      }
      assert ln - lngStart == columns;
      assert (la + 1 - latStart) * columns == (la - latStart) * columns + columns;
      la := la + 1;
    }
    assert la - latStart == Rows(vp);
  }

  lemma CellsWithin(row: nat, done: nat, rows: nat, columns: nat)
    requires row < rows && done <= columns
    ensures row * columns + done <= rows * columns
  {
    TimesMonotone(row + 1, rows, columns);
    assert (row + 1) * columns == row * columns + columns;
  }

  /** A viewport that is not too large joins the cell of every position in view, and no cell twice. */
  lemma ViewIsCovered(vp: Viewport, cells: seq<Cell>, p: Position)
    requires |cells| == Rows(vp) * Columns(vp) && RowMajor(vp, cells)
    requires vp.south <= p.lat <= vp.north && vp.west <= p.lng <= vp.east
    ensures CellOf(p) in cells
  {
    var row, column := p.lat / CELL_SIZE - vp.south / CELL_SIZE, p.lng / CELL_SIZE - vp.west / CELL_SIZE;
    var k := row * Columns(vp) + column;
    TimesMonotone(0, row, Columns(vp));
    CellsWithin(row, column + 1, Rows(vp), Columns(vp));
    DivUnique(k, Columns(vp), row, column);
    assert cells[k] == CellOf(p);
  }

  lemma CellsDiffer(vp: Viewport, cells: seq<Cell>)
    requires RowMajor(vp, cells)
    ensures Distinct(cells)
  {
    forall i, j | 0 <= i < j < |cells|
      ensures cells[i] != cells[j]
    {
      var w := Columns(vp);
      assert i == i / w * w + i % w && j == j / w * w + j % w;
    }
  }

  // ---- viewers ------------------------------------------------------------------------

  datatype Viewer = Viewer(joined: set<Cell>, markers: map<VehicleId, Position>)

  type Positions = map<VehicleId, Position>

  /** What a viewer ought to see: the vehicles whose last position is in a joined cell, where they are. */
  function Visible(last: Positions, joined: set<Cell>): Positions {
    map v | v in last && CellOf(last[v]) in joined :: last[v]
  }

  ghost predicate Agrees(viewer: Viewer, last: Positions) {
    viewer.markers == Visible(last, viewer.joined)
  }

  function Removed(viewer: Viewer, id: VehicleId): Viewer {
    viewer.(markers := viewer.markers - {id})
  }

  /** What one viewer makes of a move: dropped when it left for a cell not watched, put where it now is otherwise. */
  function SeesMove(viewer: Viewer, id: VehicleId, at: Position, prev: Option<Position>): Viewer {
    var room := CellOf(at);
    var left := prev.Some? && CellOf(prev.value) != room && CellOf(prev.value) in viewer.joined && room !in viewer.joined;
    var dropped := if left then Removed(viewer, id) else viewer;
    if room in viewer.joined then dropped.(markers := dropped.markers[id := at]) else dropped
  }

  function SeesRemoval(viewer: Viewer, id: VehicleId, at: Position): Viewer {
    if CellOf(at) in viewer.joined then Removed(viewer, id) else viewer
  }

  /** A move reaches agreement exactly when no marker it leaves behind goes untold. */
  lemma MoveAgrees(viewer: Viewer, last: Positions, id: VehicleId, at: Position, prev: Option<Position>)
    requires Agrees(viewer, last)
    ensures Agrees(SeesMove(viewer, id, at, prev), last[id := at]) <==> Told(viewer.joined, last, id, at, prev)
  {
    var after := SeesMove(viewer, id, at, prev);
    var visible := Visible(last[id := at], viewer.joined);
    forall v | v != id
      ensures v in after.markers <==> v in visible
      ensures v in visible ==> after.markers[v] == visible[v]
    {
      assert v in viewer.markers <==> v in Visible(last, viewer.joined);
    }
    assert id in viewer.markers <==> id in last && CellOf(last[id]) in viewer.joined;
    if Told(viewer.joined, last, id, at, prev) {
      assert after.markers == visible;
    } else {
      assert id in after.markers && id !in visible;
    }
  }

  /** Whether a viewer watching the vehicle's old cell but not its new one is told that it left. */
  predicate Told(joined: set<Cell>, last: Positions, id: VehicleId, at: Position, prev: Option<Position>) {
    id in last && CellOf(last[id]) in joined && CellOf(at) !in joined ==> prev.Some? && CellOf(prev.value) in joined
  }

  /** A move that carries the last position, or none for a vehicle not on the map, tells every viewer. */
  lemma FaithfulMoveTells(joined: set<Cell>, last: Positions, id: VehicleId, at: Position)
    ensures Told(joined, last, id, at, if id in last then Some(last[id]) else None)
  {
  }

  lemma RemovalAgrees(viewer: Viewer, last: Positions, id: VehicleId)
    requires Agrees(viewer, last) && id in last
    ensures Agrees(SeesRemoval(viewer, id, last[id]), last - {id})
  {
    assert SeesRemoval(viewer, id, last[id]).markers == Visible(last - {id}, viewer.joined);
  }

  // ---- whole runs -----------------------------------------------------------------------

  /** A vehicle is heard from, or taken off the map. */
  datatype Event = Heard(id: VehicleId, at: Position) | Gone(id: VehicleId)

  function LastOf(last: Positions, id: VehicleId): Option<Position> {
    if id in last then Some(last[id]) else None
  }

  function LastAfter(last: Positions, events: seq<Event>): Positions {
    if events == [] then last else
      var before, e := LastAfter(last, events[..|events| - 1]), events[|events| - 1];
      match e
      case Heard(id, at) => before[id := at]
      case Gone(id) => before - {id}
  }

  /** What a viewer is left with when each move carries the last position, and each removal is from it. */
  function SeenAfter(viewer: Viewer, last: Positions, events: seq<Event>): Viewer {
    if events == [] then viewer else
      var n := |events| - 1;
      var seen, before := SeenAfter(viewer, last, events[..n]), LastAfter(last, events[..n]);
      match events[n]
      case Heard(id, at) => SeesMove(seen, id, at, LastOf(before, id))
      case Gone(id) => if id in before then SeesRemoval(seen, id, before[id]) else seen
  }

  /** Through any moves and removals, a viewer's markers stay the vehicles in its cells, where they are. */
  lemma {:induction false} ViewersFollow(viewer: Viewer, last: Positions, events: seq<Event>)
    requires Agrees(viewer, last)
    ensures Agrees(SeenAfter(viewer, last, events), LastAfter(last, events))
    ensures SeenAfter(viewer, last, events).joined == viewer.joined
    decreases |events|
  {
    if events != [] {
      var n := |events| - 1;
      ViewersFollow(viewer, last, events[..n]);
      hide Agrees, SeesMove, Told;
      var seen, before := SeenAfter(viewer, last, events[..n]), LastAfter(last, events[..n]);
      match events[n]
      case Heard(id, at) =>
        FaithfulMoveTells(viewer.joined, before, id, at);
        MoveAgrees(seen, before, id, at, LastOf(before, id));
        SeesMoveJoined(seen, id, at, LastOf(before, id));
      case Gone(id) =>
        if id in before {
          RemovalAgrees(seen, before, id);
        } else {
          assert before - {id} == before;
        }
    }
  }

  lemma SeesMoveJoined(viewer: Viewer, id: VehicleId, at: Position, prev: Option<Position>)
    ensures SeesMove(viewer, id, at, prev).joined == viewer.joined
  {
  }

  /** Right but for one vehicle, whose removal from `at` is still to be told: its marker may linger in that cell. */
  ghost predicate Owed(viewer: Viewer, last: Positions, id: VehicleId, at: Position) {
    viewer.markers - {id} == Visible(last, viewer.joined) - {id} &&
    (id in last && CellOf(last[id]) in viewer.joined ==> id in viewer.markers && viewer.markers[id] == last[id]) &&
    (id in viewer.markers ==> CellOf(at) in viewer.joined || (id in last && CellOf(last[id]) in viewer.joined))
  }

  lemma OwedStep(viewer: Viewer, last: Positions, id: VehicleId, at: Position, e: Event)
    requires Owed(viewer, last, id, at)
    ensures e.Heard? ==> Owed(SeesMove(viewer, e.id, e.at, LastOf(last, e.id)), last[e.id := e.at], id, at)
    ensures e.Gone? && e.id in last ==> Owed(SeesRemoval(viewer, e.id, last[e.id]), last - {e.id}, id, at)
  {
    forall v | v != id
      ensures v in viewer.markers <==> v in last && CellOf(last[v]) in viewer.joined
      ensures v in viewer.markers ==> viewer.markers[v] == last[v]
    {
      assert v in viewer.markers - {id} <==> v in Visible(last, viewer.joined) - {id};
      assert v in viewer.markers ==> (viewer.markers - {id})[v] == viewer.markers[v];
    }
  }

  lemma {:induction false} OwedThroughout(viewer: Viewer, last: Positions, id: VehicleId, at: Position, events: seq<Event>)
    requires Owed(viewer, last, id, at)
    ensures Owed(SeenAfter(viewer, last, events), LastAfter(last, events), id, at)
    ensures SeenAfter(viewer, last, events).joined == viewer.joined
    decreases |events|
  {
    if events != [] {
      var n := |events| - 1;
      OwedThroughout(viewer, last, id, at, events[..n]);
      hide Owed, SeesMove;
      var seen, before := SeenAfter(viewer, last, events[..n]), LastAfter(last, events[..n]);
      OwedStep(seen, before, id, at, events[n]);
      match events[n]
      case Heard(v, to) => SeesMoveJoined(seen, v, to, LastOf(before, v));
      case Gone(v) =>
        if v !in before {
          assert before - {v} == before;
        }
    }
  }

  /**
   * A sweep announces its removals after all its claims. When a claimed vehicle's removal is told
   * late, the map is right afterwards exactly for those who do not watch both the cell it was
   * claimed in and the one it has since been heard from.
   */
  lemma LateRemovalAgrees(viewer: Viewer, last: Positions, id: VehicleId, events: seq<Event>)
    requires Agrees(viewer, last) && id in last
    ensures var seen, now := SeenAfter(viewer, last - {id}, events), LastAfter(last - {id}, events);
      Agrees(SeesRemoval(seen, id, last[id]), now) <==>
        !(id in now && CellOf(last[id]) in viewer.joined && CellOf(now[id]) in viewer.joined)
  {
    assert viewer.markers - {id} == Visible(last - {id}, viewer.joined) - {id};
    OwedThroughout(viewer, last - {id}, id, last[id], events);
    var seen, now := SeenAfter(viewer, last - {id}, events), LastAfter(last - {id}, events);
    LastTelling(seen, now, id, last[id]);
  }

  lemma LastTelling(viewer: Viewer, last: Positions, id: VehicleId, at: Position)
    requires Owed(viewer, last, id, at)
    ensures Agrees(SeesRemoval(viewer, id, at), last) <==>
      !(id in last && CellOf(at) in viewer.joined && CellOf(last[id]) in viewer.joined)
  {
    var visible, after := Visible(last, viewer.joined), SeesRemoval(viewer, id, at).markers;
    assert viewer.markers - {id} == visible - {id};
    assert after - {id} == visible - {id};
    if id in after <==> id in visible {
      forall v
        ensures v in after <==> v in visible
        ensures v in after ==> after[v] == visible[v]
      {
        assert v != id ==> (v in after <==> v in after - {id}) && (v in visible <==> v in visible - {id});
        assert v != id && v in after ==> (after - {id})[v] == after[v] && (visible - {id})[v] == visible[v];
      }
      assert after == visible;
    }
  }

  class Gateway {
    var viewers: map<SocketId, Viewer>

    constructor (viewers: map<SocketId, Viewer>)
      ensures this.viewers == viewers
    {
      this.viewers := viewers;
    }

    /** To a room, except to those in another: the sockets a message reaches. */
    function Reached(room: Cell, except: Option<Cell>): set<SocketId>
      reads this
    {
      set s | s in viewers && room in viewers[s].joined && (except.Some? ==> except.value !in viewers[s].joined)
    }

    method SendRemoved(sockets: set<SocketId>, id: VehicleId)
      modifies this
      ensures viewers == map s | s in old(viewers) ::
        if s in sockets then Removed(old(viewers)[s], id) else old(viewers)[s]
    {
      viewers := map s | s in viewers :: if s in sockets then Removed(viewers[s], id) else viewers[s];
    }

    method SendMoved(sockets: set<SocketId>, id: VehicleId, at: Position)
      modifies this
      ensures viewers == map s | s in old(viewers) ::
        if s in sockets then old(viewers)[s].(markers := old(viewers)[s].markers[id := at]) else old(viewers)[s]
    {
      viewers := map s | s in viewers :: if s in sockets then viewers[s].(markers := viewers[s].markers[id := at]) else viewers[s];
    }

    method EmitVehicleMoved(id: VehicleId, at: Position, prev: Option<Position>)
      modifies this
      ensures viewers == map s | s in old(viewers) :: SeesMove(old(viewers)[s], id, at, prev)
    {
      var room := CellOf(at);
      ghost var before := viewers;
      if prev.Some? {
        var oldRoom := CellOf(prev.value);
        if oldRoom != room {
          SendRemoved(Reached(oldRoom, Some(room)), id);
        }
      }
      SendMoved(Reached(room, None), id, at);
    }

    method EmitVehicleRemoved(id: VehicleId, at: Position)
      modifies this
      ensures viewers == map s | s in old(viewers) :: SeesRemoval(old(viewers)[s], id, at)
    {
      SendRemoved(Reached(CellOf(at), None), id);
    }
  }
}
