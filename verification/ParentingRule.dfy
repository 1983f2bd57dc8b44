/** Parenting rules: which zones the client agent keeps open around an avatar. */
module ParentingRule {
  import opened Common

  const U32: int := 0x1_0000_0000

  /** `Cartesian` describes a square grid of `size` by `size` cells whose first cell is
      zone `start`, and the distance up to which cells around the avatar are kept open. */
  datatype Rule =
    | Stated
    | Follow
    | Cartesian(start: nat, size: nat, radius: nat)
    | Auto(origin: nat, extras: set<nat>)

  predicate IsU32(x: int) {
    0 <= x < U32
  }

  /** The numeric part of ParseCartesianRule: a non-empty grid whose last cell is still
      a 32-bit zone. Both sides are computed in 64 bits. */
  predicate AcceptsGrid(start: nat, size: nat, radius: nat) {
    && IsU32(start) && IsU32(size) && IsU32(radius)
    && size != 0
    && start + size * size - 1 <= U32 - 1
  }

  const U64: int := 0x1_0000_0000_0000_0000

  function Wrap64(x: int): (w: int)
    ensures 0 <= x < U64 ==> w == x
  {
    x % U64
  }

  lemma SquareFits(size: nat)
    requires 0 < size <= U32 - 1
    ensures 1 <= size * size <= (U32 - 1) * (U32 - 1)
  {
    MulMono(size, U32 - 1, size);
    MulMono(size, U32 - 1, U32 - 1);
    MulMono(1, size, size);
  }

  /** The check of ParseCartesianRule, in wrapping 64-bit arithmetic: it does not wrap. */
  method AcceptCartesian(start: nat, size: nat, radius: nat) returns (ok: bool)
    requires IsU32(start) && IsU32(size) && IsU32(radius)
    ensures ok <==> AcceptsGrid(start, size, radius)
    ensures ok <==> size != 0 && start + size * size - 1 <= 0xFFFF_FFFF
  {
    if size == 0 { return false; }
    SquareFits(size);
    var totalCells := Wrap64(size * size);
    var maxZone := Wrap64(start + totalCells - 1);
    ok := maxZone <= U32 - 1;
  }

  predicate OnGrid(g: Rule, zone: nat)
    requires g.Cartesian?
  {
    g.start <= zone < g.start + g.size * g.size
  }

  function Distance(a: int, b: int): nat {
    if a <= b then b - a else a - b
  }

  /** Chebyshev distance of two cells is at most the radius. */
  predicate Near(g: Rule, zone: nat, cell: nat)
    requires g.Cartesian? && g.size > 0 && OnGrid(g, zone) && OnGrid(g, cell)
  {
    && Distance((zone - g.start) / g.size, (cell - g.start) / g.size) <= g.radius
    && Distance((zone - g.start) % g.size, (cell - g.start) % g.size) <= g.radius
  }

  /** The zones that a rule wants open for an avatar in `zone`. */
  function Window(g: Rule, zone: nat): set<nat>
    requires g.Cartesian?
  {
    if g.size == 0 || !OnGrid(g, zone) then {}
    else set cell | g.start <= cell < g.start + g.size * g.size && Near(g, zone, cell)
  }

  /** Two avatars on one grid either both see each other's cell or neither does. */
  lemma WindowIsSymmetric(g: Rule, a: nat, b: nat)
    requires g.Cartesian? && g.size > 0 && OnGrid(g, a) && OnGrid(g, b)
    ensures a in Window(g, b) <==> b in Window(g, a)
    ensures a in Window(g, a)
  {
  }

  /* ---- Arithmetic of rows and columns ---- */

  lemma MulMono(a: int, b: int, m: nat)
    ensures a <= b ==> a * m <= b * m
    ensures a < b ==> a * m + m <= b * m
  {
    if a < b { MulSub(b, a, m); MulAtLeast(b - a, m); }
  }

  lemma MulSub(b: int, a: int, m: int)
    ensures b * m - a * m == (b - a) * m
  {
  }

  lemma MulAtLeast(k: int, m: nat)
    ensures k >= 1 ==> k * m >= m
  {
    if k >= 1 { MulSub(k, 1, m); Nonnegative(k - 1, m); }
  }

  lemma SizeIsBounded(start: nat, size: nat, radius: nat)
    requires AcceptsGrid(start, size, radius)
    ensures size <= 0x1_0000
  {
    MulMono(0x1_0001, size, size);
    MulMono(0x1_0001, size, 0x1_0001);
  }

  function Cell(g: Rule, r: nat, c: nat): nat
    requires g.Cartesian?
  {
    g.start + r * g.size + c
  }

  /** Row and column determine the cell, and the cell its row and column. */
  lemma CellCoordinates(g: Rule, r: nat, c: nat)
    requires g.Cartesian? && r < g.size && c < g.size
    ensures OnGrid(g, Cell(g, r, c))
    ensures (Cell(g, r, c) - g.start) / g.size == r && (Cell(g, r, c) - g.start) % g.size == c
  {
    MulMono(r, g.size, g.size);
    DivModUnique(r * g.size + c, g.size, r, c);
  }

  lemma DivModUnique(x: nat, m: nat, q: nat, r: nat)
    requires m > 0 && x == q * m + r && r < m
    ensures x / m == q && x % m == r
  {
    assert x == (x / m) * m + x % m;
    MulMono(q, x / m, m);
    MulMono(x / m, q, m);
  }

  lemma CoordinatesOfCell(g: Rule, z: nat)
    requires g.Cartesian? && g.size > 0 && OnGrid(g, z)
    ensures var r, c := (z - g.start) / g.size, (z - g.start) % g.size;
            0 <= r < g.size && 0 <= c < g.size && z == Cell(g, r, c)
  {
    var x := z - g.start;
    assert x == (x / g.size) * g.size + x % g.size;
    MulMono(g.size, x / g.size, g.size);
    MulMono(x / g.size, 0, g.size);
  }

  /** The cells of row `r` in columns `lo` to `hi - 1`. */
  function Row(g: Rule, r: nat, lo: nat, hi: nat): set<nat>
    requires g.Cartesian?
    decreases hi
  {
    if hi <= lo then {} else Row(g, r, lo, hi - 1) + {Cell(g, r, hi - 1)}
  }

  /** The cells of rows `top` to `bottom - 1` in those columns. */
  function Block(g: Rule, top: nat, bottom: nat, lo: nat, hi: nat): set<nat>
    requires g.Cartesian?
    decreases bottom
  {
    if bottom <= top then {} else Block(g, top, bottom - 1, lo, hi) + Row(g, bottom - 1, lo, hi)
  }

  lemma {:induction false} InRow(g: Rule, r: nat, lo: nat, hi: nat, z: nat)
    requires g.Cartesian? && g.size > 0 && r < g.size && hi <= g.size
    ensures z in Row(g, r, lo, hi) <==>
              OnGrid(g, z) && (z - g.start) / g.size == r && lo <= (z - g.start) % g.size < hi
    decreases hi
  {
    if hi > lo {
      InRow(g, r, lo, hi - 1, z);
      CellCoordinates(g, r, hi - 1);
      if OnGrid(g, z) { CoordinatesOfCell(g, z); }
    }
  }

  lemma {:induction false} InBlock(g: Rule, top: nat, bottom: nat, lo: nat, hi: nat, z: nat)
    requires g.Cartesian? && g.size > 0 && bottom <= g.size && hi <= g.size
    ensures z in Block(g, top, bottom, lo, hi) <==>
              OnGrid(g, z) && top <= (z - g.start) / g.size < bottom && lo <= (z - g.start) % g.size < hi
    decreases bottom
  {
    if bottom > top {
      InBlock(g, top, bottom - 1, lo, hi, z);
      InRow(g, bottom - 1, lo, hi, z);
    }
  }

  /** The first and last index within `radius` of `x`, clamped to the grid. */
  function Low(x: nat, radius: nat): nat {
    if x >= radius then x - radius else 0
  }

  function High(x: nat, radius: nat, size: nat): int {
    if size - 1 < x + radius then size - 1 else x + radius
  }

  lemma WindowIsBlock(g: Rule, zone: nat)
    requires g.Cartesian? && g.size > 0 && OnGrid(g, zone)
    ensures var r, c := (zone - g.start) / g.size, (zone - g.start) % g.size;
            0 <= High(r, g.radius, g.size) < g.size && 0 <= High(c, g.radius, g.size) < g.size
            && Window(g, zone) == Block(g, Low(r, g.radius), High(r, g.radius, g.size) + 1,
                                        Low(c, g.radius), High(c, g.radius, g.size) + 1)
  {
    CoordinatesOfCell(g, zone);
    var r, c := (zone - g.start) / g.size, (zone - g.start) % g.size;
    var block := Block(g, Low(r, g.radius), High(r, g.radius, g.size) + 1,
                       Low(c, g.radius), High(c, g.radius, g.size) + 1);
    forall z: nat
      ensures z in Window(g, zone) <==> z in block
    {
      InWindowIffInBlock(g, zone, r, c, z);
    }
  }

  lemma NearIsClamped(x: nat, y: nat, radius: nat, size: nat)
    requires x < size && y < size
    ensures Distance(x, y) <= radius <==> Low(x, radius) <= y < High(x, radius, size) + 1
    ensures 0 <= High(x, radius, size) < size
  {
  }

  lemma InWindowIffInBlock(g: Rule, zone: nat, r: nat, c: nat, z: nat)
    requires g.Cartesian? && g.size > 0 && OnGrid(g, zone) && r < g.size && c < g.size
    requires r == (zone - g.start) / g.size && c == (zone - g.start) % g.size
    ensures 0 <= High(r, g.radius, g.size) < g.size && 0 <= High(c, g.radius, g.size) < g.size
    ensures z in Window(g, zone) <==>
              z in Block(g, Low(r, g.radius), High(r, g.radius, g.size) + 1,
                         Low(c, g.radius), High(c, g.radius, g.size) + 1)
  {
    NearIsClamped(r, r, g.radius, g.size);
    NearIsClamped(c, c, g.radius, g.size);
    InBlock(g, Low(r, g.radius), High(r, g.radius, g.size) + 1, Low(c, g.radius), High(c, g.radius, g.size) + 1, z);
    if OnGrid(g, z) {
      CoordinatesOfCell(g, z);
      NearIsClamped(r, (z - g.start) / g.size, g.radius, g.size);
      NearIsClamped(c, (z - g.start) % g.size, g.radius, g.size);
    }
  }

  lemma NoWrap(g: Rule, r: nat, c: nat)
    requires g.Cartesian? && AcceptsGrid(g.start, g.size, g.radius) && r < g.size && c < g.size
    ensures (g.start + (r * g.size) % U32 + c) % U32 == Cell(g, r, c) < U32
  {
    CellCoordinates(g, r, c);
    var x := r * g.size;
    assert 0 <= x < U32;
  }

  lemma NoWindow(g: Rule, zone: nat)
    requires g.Cartesian?
    ensures zone < g.start || zone - g.start >= g.size * g.size ==> Window(g, zone) == {}
    ensures zone >= g.start && zone - g.start < g.size * g.size ==> OnGrid(g, zone) && g.size > 0
  {
  }

  /** CartesianGridZones. The zone number is computed in wrapping 32-bit arithmetic; on
      an accepted grid it never wraps. */
  method CartesianGridZones(g: Rule, avatarZone: nat) returns (zones: set<nat>)
    requires g.Cartesian? && AcceptsGrid(g.start, g.size, g.radius)
    ensures zones == Window(g, avatarZone)
  {
    hide Window, OnGrid, AcceptsGrid, Cell;
    NoWindow(g, avatarZone);
    zones := {};
    if avatarZone < g.start { return; }
    var linear := avatarZone - g.start;
    if linear >= g.size * g.size { return; }
    SizeIsBounded(g.start, g.size, g.radius);
    CoordinatesOfCell(g, avatarZone);
    WindowIsBlock(g, avatarZone);
    var row: nat, col: nat := linear / g.size, linear % g.size;
    var rowLo, rowHi := Low(row, g.radius), High(row, g.radius, g.size);
    var colLo, colHi := Low(col, g.radius), High(col, g.radius, g.size);
    var r: nat := rowLo;
    while r <= rowHi
      invariant rowLo <= r <= rowHi + 1
      invariant zones == Block(g, rowLo, r, colLo, colHi + 1)
    {
      var c: nat := colLo;
      while c <= colHi
        invariant colLo <= c <= colHi + 1
        invariant zones == Block(g, rowLo, r, colLo, colHi + 1) + Row(g, r, colLo, c)
      {
        NoWrap(g, r, c);
        zones := zones + {(g.start + (r * g.size) % U32 + c) % U32};
        c := c + 1;
      }
      r := r + 1;
    }
  }

  /** A cell is in the window of another exactly if it is at most `radius` rows and at most
      `radius` columns away. */
  lemma WindowCells(g: Rule, r: nat, c: nat, s: nat, d: nat)
    requires g.Cartesian? && r < g.size && c < g.size && s < g.size && d < g.size
    ensures (g.start + s * g.size + d) as nat in Window(g, g.start + r * g.size + c)
       <==> -(g.radius as int) <= r - s <= g.radius && -(g.radius as int) <= c - d <= g.radius
  {
    CellCoordinates(g, r, c);
    CellCoordinates(g, s, d);
    assert Near(g, Cell(g, r, c), Cell(g, s, d))
      <==> -(g.radius as int) <= r - s <= g.radius && -(g.radius as int) <= c - d <= g.radius;
  }

  /** Only cells of the grid are in a window, and only cells of the grid have one. */
  lemma WindowsAreOnTheGrid(g: Rule, zone: nat, z: nat) returns (r: nat, c: nat, s: nat, d: nat)
    requires g.Cartesian? && z in Window(g, zone)
    ensures r < g.size && c < g.size && s < g.size && d < g.size
    ensures zone == g.start + r * g.size + c && z == g.start + s * g.size + d
  {
    CoordinatesOfCell(g, zone);
    CoordinatesOfCell(g, z);
    r, c := (zone - g.start) / g.size, (zone - g.start) % g.size;
    s, d := (z - g.start) / g.size, (z - g.start) % g.size;
    assert zone == Cell(g, r, c) && z == Cell(g, s, d);
  }
}
