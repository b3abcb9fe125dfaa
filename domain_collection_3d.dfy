/**
 * The three-dimensional DomainCollection of the PETSc example: a d_x by d_y by d_z grid of
 * equal domains of the unit cube, created on rank 0; the interfaces between them grouped
 * by interface id; and the local numbering of domains and interfaces, a breadth-first
 * traversal that numbers the local objects first and the off-process ones after them.
 *
 * Domain::gid (the interface id of a side) and IfaceSet::getNbrs (the interface sets an
 * interface set couples to) are defined outside this file and are parameters here: gid
 * as a function of the domain's id and the side, getNbrs as a function of the set.
 */
module DomainCollection3D {
  import opened Wrappers
  import opened IntMath
  import opened OrderedSets
  import opened LocalIndexing
  import GhostPlan

  /** A domain as the constructor fills it in: sides west, east, south, north, bottom, top
      are 0..5; a neighbour id of -1 means none; idLocal is unset until indexDomainsLocal. */
  datatype Domain = Domain(id: int, refineLevel: int, nbrIds: seq<int>, lengths: seq<real>,
                           starts: seq<real>, idLocal: Option<int>)

  // ---------------------------------------------------------------------------
  // The grid (DomainCollection.cpp:13-55)
  // ---------------------------------------------------------------------------

  /** The id the constructor's getID gives cell (x, y, z), as written. */
  function GridIdAsWritten(dy: int, dz: int, x: int, y: int, z: int): int
  {
    x + y * dy + z * dz * dz
  }

  /** As written, two cells of a 3 x 2 x 1 grid get the same id, so the second overwrites
      the first in the domain map. */
  lemma GridIdAsWrittenCollides()
    ensures GridIdAsWritten(2, 1, 2, 0, 0) == GridIdAsWritten(2, 1, 0, 1, 0) == 2
  {
  }

  /** The row-major id: x fastest, then y, then z. */
  function GridId(dx: int, dy: int, x: int, y: int, z: int): int
  {
    x + dx * (y + dy * z)
  }

  predicate InGrid(dx: int, dy: int, dz: int, x: int, y: int, z: int)
  {
    0 <= x < dx && 0 <= y < dy && 0 <= z < dz
  }

  /** The cell holding id i: the inverse of GridId. */
  function CellX(dx: int, i: int): int
    requires dx > 0
  {
    i % dx
  }

  function CellY(dx: int, dy: int, i: int): int
    requires dx > 0 && dy > 0
  {
    (i / dx) % dy
  }

  function CellZ(dx: int, dy: int, i: int): int
    requires dx > 0 && dy > 0
  {
    (i / dx) / dy
  }

  /** GridId numbers the cells of the grid one to one onto 0 .. d_x d_y d_z - 1. */
  lemma GridIdDecodes(dx: int, dy: int, dz: int, x: int, y: int, z: int)
    requires InGrid(dx, dy, dz, x, y, z)
    ensures 0 <= GridId(dx, dy, x, y, z) < dx * dy * dz
    ensures CellX(dx, GridId(dx, dy, x, y, z)) == x
    ensures CellY(dx, dy, GridId(dx, dy, x, y, z)) == y
    ensures CellZ(dx, dy, GridId(dx, dy, x, y, z)) == z
  {
    var i := GridId(dx, dy, x, y, z);
    var r := y + dy * z;
    DivMulAdd(r, x, dx);
    assert i == r * dx + x;
    DivMulAdd(z, y, dy);
    assert r == z * dy + y;
    MulMono(z, dz - 1, dy);
    assert r <= dy * dz - 1;
    MulMono(r, dy * dz - 1, dx);
    assert i <= (dy * dz - 1) * dx + (dx - 1);
    assert (dy * dz - 1) * dx + (dx - 1) == dx * dy * dz - 1;
    MulMono(0, r, dx);
  }

  /** Every id below d_x d_y d_z is the id of a cell. */
  lemma GridIdCovers(dx: int, dy: int, dz: int, i: int)
    requires dx > 0 && dy > 0 && 0 <= i < dx * dy * dz
    ensures InGrid(dx, dy, dz, CellX(dx, i), CellY(dx, dy, i), CellZ(dx, dy, i))
    ensures GridId(dx, dy, CellX(dx, i), CellY(dx, dy, i), CellZ(dx, dy, i)) == i
  {
    var x, q := i % dx, i / dx;
    var y, z := q % dy, q / dy;
    assert i == q * dx + x;
    assert q == z * dy + y;
    assert dx * (y + dy * z) == q * dx by {
      assert y + dy * z == q;
    }
    LayerBound(dx, dy, dz, i);
  }

  /** The layer (i / d_x) / d_y of an id below d_x d_y d_z is below d_z. */
  lemma LayerBound(dx: int, dy: int, dz: int, i: int)
    requires dx > 0 && dy > 0 && 0 <= i < dx * dy * dz
    ensures 0 <= (i / dx) / dy < dz
  {
    assert i < (dy * dz) * dx by {
      assert dx * dy * dz == (dy * dz) * dx;
    }
    QuotientBound(i, dx, dy * dz);
    assert i / dx < dz * dy;
    QuotientBound(i / dx, dy, dz);
  }

  /** GridId is one to one on the grid. */
  lemma GridIdInjective(dx: int, dy: int, dz: int, x: int, y: int, z: int, x': int, y': int, z': int)
    requires InGrid(dx, dy, dz, x, y, z) && InGrid(dx, dy, dz, x', y', z')
    requires GridId(dx, dy, x, y, z) == GridId(dx, dy, x', y', z')
    ensures x == x' && y == y' && z == z'
  {
    GridIdDecodes(dx, dy, dz, x, y, z);
    GridIdDecodes(dx, dy, dz, x', y', z');
  }

  /** The neighbour ids of cell (x, y, z): the adjacent cell's id, or -1 on the grid's
      boundary (DomainCollection.cpp:25-42). */
  function CellNbrs(dx: int, dy: int, dz: int, x: int, y: int, z: int): (r: seq<int>)
    ensures |r| == 6
  {
    [ if x != 0 then GridId(dx, dy, x - 1, y, z) else -1,
      if x != dx - 1 then GridId(dx, dy, x + 1, y, z) else -1,
      if y != 0 then GridId(dx, dy, x, y - 1, z) else -1,
      if y != dy - 1 then GridId(dx, dy, x, y + 1, z) else -1,
      if z != 0 then GridId(dx, dy, x, y, z - 1) else -1,
      if z != dz - 1 then GridId(dx, dy, x, y, z + 1) else -1 ]
  }

  /** The cell one step across side s. */
  function Step(s: nat, x: int, y: int, z: int): (int, int, int)
    requires s < 6
  {
    match s
    case 0 => (x - 1, y, z)
    case 1 => (x + 1, y, z)
    case 2 => (x, y - 1, z)
    case 3 => (x, y + 1, z)
    case 4 => (x, y, z - 1)
    case 5 => (x, y, z + 1)
  }

  /** z_start as written: 1.0 * domain_z / d_y. */
  function ZStartAsWritten(dy: int, z: int): real
    requires dy > 0
  {
    (z as real) / (dy as real)
  }

  /** As written, in a 1 x 1 x 2 grid the upper cell starts at z = 1, so it lies outside
      the unit cube. */
  lemma ZStartAsWrittenLeavesCube()
    ensures ZStartAsWritten(1, 1) + 1.0 / 2.0 > 1.0
  {
  }

  /** The domain the constructor makes for cell (x, y, z), with z_start = z / d_z. */
  function CellDomain(dx: int, dy: int, dz: int, x: int, y: int, z: int): Domain
    requires dx > 0 && dy > 0 && dz > 0
  {
    Domain(GridId(dx, dy, x, y, z), 1, CellNbrs(dx, dy, dz, x, y, z),
           [1.0 / (dx as real), 1.0 / (dy as real), 1.0 / (dz as real)],
           [(x as real) / (dx as real), (y as real) / (dy as real), (z as real) / (dz as real)],
           None)
  }

  /** A side has a neighbour exactly when the cell is not on that boundary of the grid, and
      the neighbour is the adjacent cell, whose opposite side names the cell back. */
  lemma CellNbrsMeaning(dx: int, dy: int, dz: int, x: int, y: int, z: int, s: nat)
    requires InGrid(dx, dy, dz, x, y, z) && s < 6
    ensures var (x', y', z') := Step(s, x, y, z);
            && (CellNbrs(dx, dy, dz, x, y, z)[s] != -1 <==> InGrid(dx, dy, dz, x', y', z'))
            && (InGrid(dx, dy, dz, x', y', z') ==>
                  && CellNbrs(dx, dy, dz, x, y, z)[s] == GridId(dx, dy, x', y', z')
                  && CellNbrs(dx, dy, dz, x', y', z')[GhostPlan.Opposite(s)] == GridId(dx, dy, x, y, z))
  {
    var (x', y', z') := Step(s, x, y, z);
    if InGrid(dx, dy, dz, x', y', z') {
      GridIdDecodes(dx, dy, dz, x', y', z');
    }
  }

  /** Every domain lies inside the unit cube, and the domains' extents along each axis
      tile it: start_k = k / d and length 1 / d. */
  lemma CellDomainInCube(dx: int, dy: int, dz: int, x: int, y: int, z: int)
    requires InGrid(dx, dy, dz, x, y, z)
    ensures var dom := CellDomain(dx, dy, dz, x, y, z);
            forall a :: 0 <= a < 3 ==> 0.0 <= dom.starts[a] && dom.starts[a] + dom.lengths[a] <= 1.0
  {
    var dom := CellDomain(dx, dy, dz, x, y, z);
    UnitTile(x, dx);
    UnitTile(y, dy);
    UnitTile(z, dz);
  }

  lemma UnitTile(k: int, n: int)
    requires 0 <= k < n
    ensures 0.0 <= (k as real) / (n as real)
    ensures (k as real) / (n as real) + 1.0 / (n as real) <= 1.0
  {
    assert (k as real) / (n as real) + 1.0 / (n as real) == ((k + 1) as real) / (n as real);
  }

  /** The domains of the first `upto` ids, each the domain of its cell. */
  ghost predicate GridPrefix(dx: int, dy: int, dz: int, m: map<int, Domain>, upto: int)
    requires dx > 0 && dy > 0 && dz > 0
  {
    && (forall i :: i in m <==> 0 <= i < upto)
    && (forall i :: i in m ==> m[i] == CellDomain(dx, dy, dz, CellX(dx, i), CellY(dx, dy, i), CellZ(dx, dy, i)))
  }

  /** Numbering the domains of the grid changes nothing but their id_local. */
  lemma GridRenumbered(dx: int, dy: int, dz: int, grid: map<int, Domain>, m: map<int, Domain>)
    requires dx > 0 && dy > 0 && dz > 0 && GridPrefix(dx, dy, dz, grid, dx * dy * dz)
    requires m.Keys == grid.Keys && forall k :: k in m ==> m[k].(idLocal := grid[k].idLocal) == grid[k]
    ensures forall i :: i in m <==> 0 <= i < dx * dy * dz
    ensures forall i :: i in m ==>
              m[i].(idLocal := None) == CellDomain(dx, dy, dz, CellX(dx, i), CellY(dx, dy, i), CellZ(dx, dy, i))
  {
    forall i | i in m
      ensures m[i].(idLocal := None) == CellDomain(dx, dy, dz, CellX(dx, i), CellY(dx, dy, i), CellZ(dx, dy, i))
    {
      assert grid[i] == CellDomain(dx, dy, dz, CellX(dx, i), CellY(dx, dy, i), CellZ(dx, dy, i));
      assert m[i].(idLocal := grid[i].idLocal) == grid[i];
    }
  }

  /** One pass of the innermost loop adds the next id's domain. */
  lemma GridPrefixStep(dx: int, dy: int, dz: int, m: map<int, Domain>, x: int, y: int, z: int)
    requires InGrid(dx, dy, dz, x, y, z) && GridPrefix(dx, dy, dz, m, GridId(dx, dy, x, y, z))
    ensures GridPrefix(dx, dy, dz, m[GridId(dx, dy, x, y, z) := CellDomain(dx, dy, dz, x, y, z)],
                       GridId(dx, dy, x, y, z) + 1)
  {
    GridIdDecodes(dx, dy, dz, x, y, z);
  }

  /** The loop over x at DomainCollection.cpp:21-50 for one row. */
  method BuildRow(dx: int, dy: int, dz: int, y: int, z: int, m0: map<int, Domain>) returns (m: map<int, Domain>)
    requires dx > 0 && 0 <= y < dy && 0 <= z < dz
    requires GridPrefix(dx, dy, dz, m0, GridId(dx, dy, 0, y, z))
    ensures GridPrefix(dx, dy, dz, m, GridId(dx, dy, 0, y, z) + dx)
  {
    m := m0;
    var x := 0;
    while x < dx
      invariant 0 <= x <= dx
      invariant GridPrefix(dx, dy, dz, m, GridId(dx, dy, 0, y, z) + x)
    {
      var nbrs := CellNbrs(dx, dy, dz, x, y, z);
      var ds := Domain(GridId(dx, dy, x, y, z), 1, nbrs,
                       [1.0 / (dx as real), 1.0 / (dy as real), 1.0 / (dz as real)],
                       [(x as real) / (dx as real), (y as real) / (dy as real), (z as real) / (dz as real)],
                       None);
      GridPrefixStep(dx, dy, dz, m, x, y, z);
      m := m[ds.id := ds];
      x := x + 1;
    }
  }

  /** The first id of the next row follows the last id of this one. */
  lemma RowStarts(dx: int, dy: int, y: int, z: int)
    ensures GridId(dx, dy, 0, y, z) + dx == GridId(dx, dy, 0, y + 1, z)
    ensures GridId(dx, dy, 0, dy, z) == GridId(dx, dy, 0, 0, z + 1)
    ensures GridId(dx, dy, 0, 0, z) == dx * dy * z
  {
    MulAddOne(dx, y + dy * z);
    MulAddOne(dy, z);
  }

  /** The loops over y and x at DomainCollection.cpp:20-51 for one layer. */
  method BuildLayer(dx: int, dy: int, dz: int, z: int, m0: map<int, Domain>) returns (m: map<int, Domain>)
    requires dx > 0 && dy > 0 && 0 <= z < dz
    requires GridPrefix(dx, dy, dz, m0, GridId(dx, dy, 0, 0, z))
    ensures GridPrefix(dx, dy, dz, m, GridId(dx, dy, 0, 0, z + 1))
  {
    m := m0;
    var y := 0;
    while y < dy
      invariant 0 <= y <= dy
      invariant GridPrefix(dx, dy, dz, m, GridId(dx, dy, 0, y, z))
    {
      RowStarts(dx, dy, y, z);
      m := BuildRow(dx, dy, dz, y, z, m);
      y := y + 1;
    }
    RowStarts(dx, dy, y, z);
  }

  /** The loops over z, y and x at DomainCollection.cpp:19-51: every cell's domain under
      its id. */
  method BuildGrid(dx: int, dy: int, dz: int) returns (m: map<int, Domain>)
    requires dx > 0 && dy > 0 && dz > 0
    ensures GridPrefix(dx, dy, dz, m, dx * dy * dz)
  {
    m := map[];
    var z := 0;
    RowStarts(dx, dy, 0, 0);
    while z < dz
      invariant 0 <= z <= dz
      invariant GridPrefix(dx, dy, dz, m, GridId(dx, dy, 0, 0, z))
    {
      m := BuildLayer(dx, dy, dz, z, m);
      z := z + 1;
    }
    RowStarts(dx, dy, 0, dz);
  }

  /** The grid the constructor builds holds exactly one domain per cell, under the cell's
      id, with the cell's neighbours. */
  lemma GridDomains(dx: int, dy: int, dz: int, m: map<int, Domain>)
    requires dx > 0 && dy > 0 && dz > 0 && GridPrefix(dx, dy, dz, m, dx * dy * dz)
    ensures |m| == dx * dy * dz
    ensures forall x, y, z :: InGrid(dx, dy, dz, x, y, z) ==>
              GridId(dx, dy, x, y, z) in m && m[GridId(dx, dy, x, y, z)] == CellDomain(dx, dy, dz, x, y, z)
    ensures forall i :: i in m ==> InGrid(dx, dy, dz, CellX(dx, i), CellY(dx, dy, i), CellZ(dx, dy, i))
  {
    forall x, y, z | InGrid(dx, dy, dz, x, y, z)
      ensures GridId(dx, dy, x, y, z) in m && m[GridId(dx, dy, x, y, z)] == CellDomain(dx, dy, dz, x, y, z)
    {
      GridIdDecodes(dx, dy, dz, x, y, z);
    }
    forall i | i in m
      ensures InGrid(dx, dy, dz, CellX(dx, i), CellY(dx, dy, i), CellZ(dx, dy, i))
    {
      GridIdCovers(dx, dy, dz, i);
    }
    RangeCard(m, dx * dy * dz);
  }

  lemma {:induction false} RangeCard(m: map<int, Domain>, n: int)
    requires n >= 0 && forall i :: i in m <==> 0 <= i < n
    ensures |m| == n
    decreases n
  {
    if n > 0 {
      var m' := map i | i in m && i != n - 1 :: m[i];
      RangeCard(m', n - 1);
      assert m.Keys == m'.Keys + {n - 1};
    } else {
      assert m.Keys == {};
    }
  }

  // ---------------------------------------------------------------------------
  // Interfaces (DomainCollection.cpp:57-75)
  // ---------------------------------------------------------------------------

  /** One side of one domain, as enumerateIfaces records it (its type is always normal). */
  datatype Iface = Iface(domainId: int, side: int)

  /** The interfaces sharing one interface id; idLocal is unset until indexIfacesLocal. */
  datatype IfaceSet = IfaceSet(gid: int, members: set<Iface>, idLocal: Option<int>)

  predicate HasNbr(d: Domain, s: int)
  {
    0 <= s < |d.nbrIds| && d.nbrIds[s] != -1
  }

  /** The (interface id, interface) pairs of side s of domain d, when it has a neighbour. */
  function SideEntry(d: Domain, gid: (int, int) -> int, s: int): (int, Iface)
  {
    (gid(d.id, s), Iface(d.id, s))
  }

  /** The pairs of the sides below t of domain k. */
  ghost function SideEntries(domains: map<int, Domain>, gid: (int, int) -> int, k: int, t: int): set<(int, Iface)>
    requires k in domains
  {
    set s | 0 <= s < t && HasNbr(domains[k], s) :: SideEntry(domains[k], gid, s)
  }

  /** The pairs of every side with a neighbour of the domains with ids in S. */
  ghost function Entries(domains: map<int, Domain>, gid: (int, int) -> int, S: set<int>): set<(int, Iface)>
  {
    set k, s | k in S && k in domains && 0 <= s < 6 && HasNbr(domains[k], s) :: SideEntry(domains[k], gid, s)
  }

  /** ifaces groups exactly the pairs of E by interface id. */
  ghost predicate Describes(ifaces: map<int, IfaceSet>, E: set<(int, Iface)>)
  {
    && (forall e :: e in E ==> e.0 in ifaces && e.1 in ifaces[e.0].members)
    && (forall g :: g in ifaces ==> ifaces[g].gid == g && ifaces[g].members != {})
    && (forall g, f :: g in ifaces && f in ifaces[g].members ==> (g, f) in E)
  }

  /** ifaces[g].insert(iface) on a std::map, whose operator[] creates an empty set first. */
  function AddIface(ifaces: map<int, IfaceSet>, g: int, f: Iface): (r: map<int, IfaceSet>)
    ensures r.Keys == ifaces.Keys + {g}
  {
    var old_ := if g in ifaces then ifaces[g] else IfaceSet(g, {}, None);
    ifaces[g := IfaceSet(g, old_.members + {f}, old_.idLocal)]
  }

  /** Inserting a pair keeps ifaces a grouping of the pairs seen. */
  lemma DescribesAdd(ifaces: map<int, IfaceSet>, E: set<(int, Iface)>, g: int, f: Iface)
    requires Describes(ifaces, E)
    ensures Describes(AddIface(ifaces, g, f), E + {(g, f)})
  {
  }

  /** The interface ids present are exactly the ids of the pairs, so there are as many
      interface sets as distinct ids. */
  lemma DescribesKeys(ifaces: map<int, IfaceSet>, E: set<(int, Iface)>)
    requires Describes(ifaces, E)
    ensures ifaces.Keys == set e | e in E :: e.0
  {
    forall g | g in ifaces
      ensures g in set e | e in E :: e.0
    {
      var f := Pick(ifaces[g].members);
      assert (g, f) in E;
    }
  }

  lemma SideEntriesNext(domains: map<int, Domain>, gid: (int, int) -> int, k: int, t: int)
    requires k in domains && 0 <= t
    ensures SideEntries(domains, gid, k, t + 1) ==
            SideEntries(domains, gid, k, t) + (if HasNbr(domains[k], t) then {SideEntry(domains[k], gid, t)} else {})
  {
  }

  lemma EntriesNext(domains: map<int, Domain>, gid: (int, int) -> int, S: set<int>, k: int)
    requires k in domains
    ensures Entries(domains, gid, S + {k}) == Entries(domains, gid, S) + SideEntries(domains, gid, k, 6)
  {
    forall e | e in Entries(domains, gid, S + {k})
      ensures e in Entries(domains, gid, S) + SideEntries(domains, gid, k, 6)
    {
      var k', s :| k' in S + {k} && k' in domains && 0 <= s < 6 && HasNbr(domains[k'], s) && e == SideEntry(domains[k'], gid, s);
      if k' != k {
        assert e in Entries(domains, gid, S);
      }
    }
  }

  /** The loops of enumerateIfaces: every domain in key order, every side in order. */
  method EnumerateEntries(domains: map<int, Domain>, gid: (int, int) -> int) returns (ifaces: map<int, IfaceSet>)
    ensures Describes(ifaces, Entries(domains, gid, domains.Keys))
    ensures forall g :: g in ifaces ==> ifaces[g].idLocal == None
  {
    ifaces := map[];
    var ks := SortedKeys(domains);
    for i := 0 to |ks|
      invariant Describes(ifaces, Entries(domains, gid, Elems(ks[..i])))
      invariant forall g :: g in ifaces ==> ifaces[g].idLocal == None
    {
      var k := ks[i];
      var d := domains[k];
      for s := 0 to 6
        invariant Describes(ifaces, Entries(domains, gid, Elems(ks[..i])) + SideEntries(domains, gid, k, s))
        invariant forall g :: g in ifaces ==> ifaces[g].idLocal == None
      {
        SideEntriesNext(domains, gid, k, s);
        if HasNbr(d, s) {
          DescribesAdd(ifaces, Entries(domains, gid, Elems(ks[..i])) + SideEntries(domains, gid, k, s),
                       gid(d.id, s), Iface(d.id, s));
          ifaces := AddIface(ifaces, gid(d.id, s), Iface(d.id, s));
        }
      }
      EntriesNext(domains, gid, Elems(ks[..i]), k);
      assert Elems(ks[..i + 1]) == Elems(ks[..i]) + {k} by {
        assert ks[..i + 1] == ks[..i] + [k];
      }
    }
    assert ks[..|ks|] == ks;
  }

  // ---------------------------------------------------------------------------
  // Local numbering (DomainCollection.cpp:76-93, 249-295, 341-432)
  // ---------------------------------------------------------------------------

  /** The position where g first occurs in gs. */
  function FirstIndex(gs: seq<int>, g: int): (r: nat)
    requires g in gs
    ensures r < |gs| && gs[r] == g
    ensures forall u :: 0 <= u < r ==> gs[u] != g
  {
    if gs[0] == g then 0 else 1 + FirstIndex(gs[1..], g)
  }

  /** The interface ids of all six sides of each domain of order, in that order. */
  function DomainGids(domains: map<int, Domain>, gid: (int, int) -> int, order: seq<int>): (r: seq<int>)
    requires forall i :: 0 <= i < |order| ==> order[i] in domains
    ensures |r| == 6 * |order|
  {
    if order == [] then []
    else DomainGids(domains, gid, order[..|order| - 1])
         + seq(6, s => gid(domains[order[|order| - 1]].id, s))
  }

  /** The interface ids of all sides of the domains with ids in S. */
  ghost function AllGids(domains: map<int, Domain>, gid: (int, int) -> int, S: set<int>): set<int>
  {
    set k, s | k in S && k in domains && 0 <= s < 6 :: gid(domains[k].id, s)
  }

  lemma {:induction false} DomainGidsElems(domains: map<int, Domain>, gid: (int, int) -> int, order: seq<int>)
    requires forall i :: 0 <= i < |order| ==> order[i] in domains
    ensures Elems(DomainGids(domains, gid, order)) == AllGids(domains, gid, Elems(order))
    decreases |order|
  {
    if order != [] {
      var init := order[..|order| - 1];
      var k := order[|order| - 1];
      DomainGidsElems(domains, gid, init);
      assert order == init + [k];
      assert Elems(order) == Elems(init) + {k};
      var last := seq(6, s => gid(domains[k].id, s));
      assert Elems(DomainGids(domains, gid, order)) == Elems(DomainGids(domains, gid, init)) + Elems(last);
      forall g | g in AllGids(domains, gid, Elems(order))
        ensures g in AllGids(domains, gid, Elems(init)) + Elems(last)
      {
        var k', s :| k' in Elems(order) && k' in domains && 0 <= s < 6 && g == gid(domains[k'].id, s);
        if k' == k {
          assert last[s] == g;
        } else {
          assert g in AllGids(domains, gid, Elems(init));
        }
      }
      forall g | g in Elems(last)
        ensures g in AllGids(domains, gid, Elems(order))
      {
        var s :| 0 <= s < 6 && last[s] == g;
        assert k in Elems(order);
      }
    }
  }

  /** The numbering after the first t ids of gs. */
  ghost predicate SightSoFar(gs: seq<int>, t: int, mapVec: seq<int>, rev: map<int, int>)
    requires 0 <= t <= |gs|
  {
    && Distinct(mapVec) && Elems(mapVec) == (set g | g in gs[..t] && g != -1)
    && rev.Keys == Elems(mapVec)
    && (forall j :: 0 <= j < |mapVec| ==> rev[mapVec[j]] == j)
    && (forall j :: 0 <= j < |mapVec| ==> mapVec[j] in gs && FirstIndex(gs, mapVec[j]) < t)
    && (forall a, b :: 0 <= a < b < |mapVec| ==>
          mapVec[a] in gs && mapVec[b] in gs && FirstIndex(gs, mapVec[a]) < FirstIndex(gs, mapVec[b]))
  }

  /** Seeing gs[t]: a new id other than -1 is numbered next, anything else changes nothing. */
  lemma SightStep(gs: seq<int>, t: int, mapVec: seq<int>, rev: map<int, int>)
    requires 0 <= t < |gs| && SightSoFar(gs, t, mapVec, rev)
    ensures gs[t] != -1 && gs[t] !in rev ==>
              SightSoFar(gs, t + 1, mapVec + [gs[t]], rev[gs[t] := |mapVec|])
    ensures !(gs[t] != -1 && gs[t] !in rev) ==> SightSoFar(gs, t + 1, mapVec, rev)
  {
    var g := gs[t];
    assert gs[..t + 1] == gs[..t] + [g];
    if g != -1 && g !in rev {
      forall u | 0 <= u < t
        ensures gs[u] != g
      {
        assert gs[..t][u] == gs[u];
        assert gs[u] in gs[..t];
      }
      assert FirstIndex(gs, g) == t;
      DistinctSnoc(mapVec, g);
      var mapVec' := mapVec + [g];
      forall j | 0 <= j < |mapVec'|
        ensures rev[g := |mapVec|][mapVec'[j]] == j
      {
        if j < |mapVec| {
          assert mapVec'[j] == mapVec[j];
        }
      }
    }
  }

  /** The numbering loop of indexDomainIfacesLocal: each id other than -1 gets the next
      index the first time it is seen. mapVec is map_vec and rev is rev_map. */
  method NumberFirstSight(gs: seq<int>) returns (mapVec: seq<int>, rev: map<int, int>)
    ensures Distinct(mapVec) && Elems(mapVec) == set g | g in gs && g != -1
    ensures rev.Keys == Elems(mapVec)
    ensures forall j :: 0 <= j < |mapVec| ==> rev[mapVec[j]] == j
    ensures forall a, b :: 0 <= a < b < |mapVec| ==>
              mapVec[a] in gs && mapVec[b] in gs && FirstIndex(gs, mapVec[a]) < FirstIndex(gs, mapVec[b])
  {
    mapVec, rev := [], map[];
    for t := 0 to |gs|
      invariant SightSoFar(gs, t, mapVec, rev)
    {
      SightStep(gs, t, mapVec, rev);
      var g := gs[t];
      if g != -1 && g !in rev {
        rev := rev[g := |mapVec|];
        mapVec := mapVec + [g];
      }
    }
    assert gs[..|gs|] == gs;
  }

  /** Every domain's neighbour ids, keyed by domain id. */
  function DomainNbrs(domains: map<int, Domain>): (r: map<int, seq<int>>)
    ensures r.Keys == domains.Keys
  {
    map k | k in domains :: domains[k].nbrIds
  }

  /** Every interface set's neighbouring sets, keyed by interface id. */
  function IfaceNbrs(ifaces: map<int, IfaceSet>, getNbrs: IfaceSet -> seq<int>): (r: map<int, seq<int>>)
    ensures r.Keys == ifaces.Keys
  {
    map g | g in ifaces :: getNbrs(ifaces[g].(idLocal := None))
  }

  /** Each id of mapVec is seen in gs before the ids after it. */
  ghost predicate FirstSeen(gs: seq<int>, mapVec: seq<int>)
  {
    forall a, b :: 0 <= a < b < |mapVec| ==>
      mapVec[a] in gs && mapVec[b] in gs && FirstIndex(gs, mapVec[a]) < FirstIndex(gs, mapVec[b])
  }

  /** iface_dist_map_vec lists every interface id of a side of a local domain once, in the
      order the sides are first seen when the domains are visited in breadth-first order. */
  ghost predicate DistNumbering(domains: map<int, Domain>, gid: (int, int) -> int, mapVec: seq<int>)
  {
    && Distinct(mapVec) && Elems(mapVec) == AllGids(domains, gid, domains.Keys) - {-1}
    && forall order: seq<int>, off: seq<int> ::
         BfsNumbering(domains.Keys, DomainNbrs(domains), true, order, off) ==>
           && (forall i :: 0 <= i < |order| ==> order[i] in domains)
           && FirstSeen(DomainGids(domains, gid, order), mapVec)
  }

  /** A first-sight numbering of the sides along a breadth-first order is a DistNumbering. */
  lemma DistNumberingFrom(domains: map<int, Domain>, gid: (int, int) -> int, order: seq<int>, off: seq<int>, mapVec: seq<int>)
    requires BfsNumbering(domains.Keys, DomainNbrs(domains), true, order, off)
    requires forall i :: 0 <= i < |order| ==> order[i] in domains
    requires Distinct(mapVec) && Elems(mapVec) == AllGids(domains, gid, domains.Keys) - {-1}
    requires FirstSeen(DomainGids(domains, gid, order), mapVec)
    ensures DistNumbering(domains, gid, mapVec)
  {
    forall order': seq<int>, off': seq<int> | BfsNumbering(domains.Keys, DomainNbrs(domains), true, order', off')
      ensures (forall i :: 0 <= i < |order'| ==> order'[i] in domains)
      ensures FirstSeen(DomainGids(domains, gid, order'), mapVec)
    {
      BfsNumberingUnique(domains.Keys, DomainNbrs(domains), true, order, off, order', off');
      assert order' == order;
    }
  }

  /** The body of indexDomainIfacesLocal: the domains in breadth-first order, their side ids
      in that order, numbered on first sight. */
  method NumberSides(domains: map<int, Domain>, gid: (int, int) -> int) returns (mapVec: seq<int>)
    ensures DistNumbering(domains, gid, mapVec)
  {
    var order, off, _ := Bfs(domains.Keys, DomainNbrs(domains), true);
    mapVec := SidesAlong(domains, gid, order);
    DistNumberingFrom(domains, gid, order, off, mapVec);
  }

  /** The side ids of the domains of order, read in that order and numbered on first sight. */
  method SidesAlong(domains: map<int, Domain>, gid: (int, int) -> int, order: seq<int>) returns (mapVec: seq<int>)
    requires Elems(order) == domains.Keys
    ensures forall i :: 0 <= i < |order| ==> order[i] in domains
    ensures Distinct(mapVec) && Elems(mapVec) == AllGids(domains, gid, domains.Keys) - {-1}
    ensures FirstSeen(DomainGids(domains, gid, order), mapVec)
  {
    assert forall i :: 0 <= i < |order| ==> order[i] in Elems(order);
    var gs := DomainGids(domains, gid, order);
    var rev;
    mapVec, rev := NumberFirstSight(gs);
    DomainGidsElems(domains, gid, order);
  }

  /** The interface ids of the sides do not depend on the local indexes. */
  lemma {:induction false} DomainGidsUpToLocal(d1: map<int, Domain>, d2: map<int, Domain>, gid: (int, int) -> int, order: seq<int>)
    requires d1.Keys == d2.Keys
    requires forall k :: k in d2 ==> d2[k].(idLocal := d1[k].idLocal) == d1[k]
    requires forall i :: 0 <= i < |order| ==> order[i] in d1
    ensures DomainGids(d1, gid, order) == DomainGids(d2, gid, order)
    decreases |order|
  {
    if order != [] {
      var k := order[|order| - 1];
      assert d1[k].id == d2[k].id;
      DomainGidsUpToLocal(d1, d2, gid, order[..|order| - 1]);
    }
  }

  /** Setting local indexes keeps the breadth-first interface numbering. */
  lemma DistUpToLocal(d1: map<int, Domain>, d2: map<int, Domain>, gid: (int, int) -> int, mapVec: seq<int>)
    requires d1.Keys == d2.Keys
    requires forall k :: k in d2 ==> d2[k].(idLocal := d1[k].idLocal) == d1[k]
    ensures DistNumbering(d1, gid, mapVec) ==> DistNumbering(d2, gid, mapVec)
  {
    if DistNumbering(d1, gid, mapVec) {
      DomainsUpToLocal(d1, d2, gid);
      forall order: seq<int>, off: seq<int> | BfsNumbering(d2.Keys, DomainNbrs(d2), true, order, off)
        ensures (forall i :: 0 <= i < |order| ==> order[i] in d2)
        ensures FirstSeen(DomainGids(d2, gid, order), mapVec)
      {
        DomainGidsUpToLocal(d1, d2, gid, order);
      }
    }
  }

  /** Setting local indexes changes neither the interface pairs, nor the interface ids,
      nor the neighbour lists of the domains. */
  lemma DomainsUpToLocal(d1: map<int, Domain>, d2: map<int, Domain>, gid: (int, int) -> int)
    requires d1.Keys == d2.Keys
    requires forall k :: k in d2 ==> d2[k].(idLocal := d1[k].idLocal) == d1[k]
    ensures Entries(d1, gid, d1.Keys) == Entries(d2, gid, d2.Keys)
    ensures AllGids(d1, gid, d1.Keys) == AllGids(d2, gid, d2.Keys)
    ensures DomainNbrs(d1) == DomainNbrs(d2)
  {
    assert forall k :: k in d2 ==> d2[k].id == d1[k].id && d2[k].nbrIds == d1[k].nbrIds;
    forall e | e in Entries(d1, gid, d1.Keys)
      ensures e in Entries(d2, gid, d2.Keys)
    {
      var k, s :| k in d1 && 0 <= s < 6 && HasNbr(d1[k], s) && e == SideEntry(d1[k], gid, s);
      assert HasNbr(d2[k], s) && e == SideEntry(d2[k], gid, s);
    }
    forall e | e in Entries(d2, gid, d2.Keys)
      ensures e in Entries(d1, gid, d1.Keys)
    {
      var k, s :| k in d2 && 0 <= s < 6 && HasNbr(d2[k], s) && e == SideEntry(d2[k], gid, s);
      assert HasNbr(d1[k], s) && e == SideEntry(d1[k], gid, s);
    }
    forall g | g in AllGids(d1, gid, d1.Keys)
      ensures g in AllGids(d2, gid, d2.Keys)
    {
      var k, s :| k in d1 && 0 <= s < 6 && g == gid(d1[k].id, s);
      assert g == gid(d2[k].id, s);
    }
    forall g | g in AllGids(d2, gid, d2.Keys)
      ensures g in AllGids(d1, gid, d1.Keys)
    {
      var k, s :| k in d2 && 0 <= s < 6 && g == gid(d2[k].id, s);
      assert g == gid(d1[k].id, s);
    }
  }

  /** Setting local indexes keeps the grouping of the interfaces and their neighbours. */
  lemma IfacesUpToLocal(i1: map<int, IfaceSet>, i2: map<int, IfaceSet>, E: set<(int, Iface)>,
                        getNbrs: IfaceSet -> seq<int>)
    requires i1.Keys == i2.Keys
    requires forall g :: g in i2 ==> i2[g].(idLocal := i1[g].idLocal) == i1[g]
    ensures Describes(i1, E) ==> Describes(i2, E)
    ensures |i1| == |i2|
    ensures IfaceNbrs(i1, getNbrs) == IfaceNbrs(i2, getNbrs)
  {
    assert forall g :: g in i2 ==> i2[g].gid == i1[g].gid && i2[g].members == i1[g].members;
    assert forall g :: g in i2 ==> i2[g].(idLocal := None) == i1[g].(idLocal := None);
    assert |i1| == |i1.Keys| && |i2| == |i2.Keys|;
  }

  /** A domain with its local index set. */
  function WithLocal(d: Domain, i: int): (r: Domain)
    ensures r.idLocal == Some(i) && r.(idLocal := d.idLocal) == d
  {
    d.(idLocal := Some(i))
  }

  /** An interface set with its local index set. */
  function SetWithLocal(f: IfaceSet, i: int): (r: IfaceSet)
    ensures r.idLocal == Some(i) && r.(idLocal := f.idLocal) == f
  {
    f.(idLocal := Some(i))
  }

  /**
   * DomainCollection: the domains of this process keyed by id, their interface sets keyed
   * by interface id, and the local numberings of both.
   */
  class DomainCollection {
    const rank: int
    /** Domain::gid: the interface id of a side of the domain with the given id. */
    const gid: (int, int) -> int
    /** IfaceSet::getNbrs, which does not look at the set's local index. */
    const getNbrs: IfaceSet -> seq<int>
    const numGlobalDomains: int
    var domains: map<int, Domain>
    var ifaces: map<int, IfaceSet>
    var numGlobalInterfaces: int
    var domainMapVec: seq<int>
    var domainOffProcMapVec: seq<int>
    var ifaceMapVec: seq<int>
    var ifaceOffProcMapVec: seq<int>
    var ifaceDistMapVec: seq<int>

    /** The interface sets group every side with a neighbour by its interface id. */
    ghost predicate IfacesEnumerated()
      reads this`ifaces, this`domains, this`numGlobalInterfaces
    {
      && Describes(ifaces, Entries(domains, gid, domains.Keys))
      && numGlobalInterfaces == |ifaces|
    }

    /** domain_map_vec numbers every domain of this process once, each domain holds its
        number, and the off-process list holds every other domain a neighbour names once. */
    ghost predicate DomainsIndexed()
      reads this`domains, this`domainMapVec, this`domainOffProcMapVec
    {
      && Distinct(domainMapVec) && Elems(domainMapVec) == domains.Keys
      && (forall j :: 0 <= j < |domainMapVec| ==> domains[domainMapVec[j]].idLocal == Some(j))
      && Distinct(domainOffProcMapVec)
      && Elems(domainOffProcMapVec) == NamedBy(DomainNbrs(domains), domains.Keys, true) - domains.Keys
      && BfsNumbering(domains.Keys, DomainNbrs(domains), true, domainMapVec, domainOffProcMapVec)
    }

    /** The same for the interface sets and their neighbouring sets. */
    ghost predicate IfacesIndexed()
      reads this`ifaces, this`ifaceMapVec, this`ifaceOffProcMapVec
    {
      && Distinct(ifaceMapVec) && Elems(ifaceMapVec) == ifaces.Keys
      && (forall j :: 0 <= j < |ifaceMapVec| ==> ifaces[ifaceMapVec[j]].idLocal == Some(j))
      && Distinct(ifaceOffProcMapVec)
      && Elems(ifaceOffProcMapVec) == NamedBy(IfaceNbrs(ifaces, getNbrs), ifaces.Keys, false) - ifaces.Keys
      && BfsNumbering(ifaces.Keys, IfaceNbrs(ifaces, getNbrs), false, ifaceMapVec, ifaceOffProcMapVec)
    }

    /** iface_dist_map_vec lists every interface id of a side of a local domain once. */
    ghost predicate DistIndexed()
      reads this`domains, this`ifaceDistMapVec
    {
      DistNumbering(domains, gid, ifaceDistMapVec)
    }

    /** DomainCollection(rank, d_x, d_y, d_z): rank 0 holds every domain of the grid, the
        other ranks none; then the interfaces are enumerated and everything is numbered. */
    constructor(rank: int, dx: int, dy: int, dz: int, gid: (int, int) -> int, getNbrs: IfaceSet -> seq<int>)
      requires dx > 0 && dy > 0 && dz > 0
      ensures this.rank == rank && this.gid == gid && this.getNbrs == getNbrs
      ensures numGlobalDomains == dx * dy * dz
      ensures rank == 0 ==> forall i :: i in domains <==> 0 <= i < dx * dy * dz
      ensures rank == 0 ==> forall i :: i in domains ==>
                domains[i].(idLocal := None) == CellDomain(dx, dy, dz, CellX(dx, i), CellY(dx, dy, i), CellZ(dx, dy, i))
      ensures rank != 0 ==> domains == map[]
      ensures IfacesEnumerated() && DomainsIndexed() && IfacesIndexed() && DistIndexed()
    {
      this.rank := rank;
      this.gid := gid;
      this.getNbrs := getNbrs;
      numGlobalDomains := dx * dy * dz;
      var m := map[];
      if rank == 0 {
        m := BuildGrid(dx, dy, dz);
      }
      domains := m;
      ifaces := map[];
      numGlobalInterfaces := 0;
      domainMapVec, domainOffProcMapVec := [], [];
      ifaceMapVec, ifaceOffProcMapVec, ifaceDistMapVec := [], [], [];
      new;
      ghost var grid := domains;
      EnumerateIfaces();
      ReIndex();
      if rank == 0 {
        GridRenumbered(dx, dy, dz, grid, domains);
      }
    }

    /** enumerateIfaces: one interface per side with a neighbour, grouped by interface id;
        num_global_interfaces is the number of distinct ids. */
    method EnumerateIfaces()
      requires ifaces == map[]
      modifies this`ifaces, this`numGlobalInterfaces
      ensures IfacesEnumerated()
      ensures numGlobalInterfaces == |set e | e in Entries(domains, gid, domains.Keys) :: e.0|
      ensures forall g :: g in ifaces ==> ifaces[g].idLocal == None
    {
      ifaces := EnumerateEntries(domains, gid);
      numGlobalInterfaces := |ifaces|;
      DescribesKeys(ifaces, Entries(domains, gid, domains.Keys));
    }

    /** reIndex: the three local numberings, in the source's order. */
    method ReIndex()
      requires IfacesEnumerated()
      modifies this`domains, this`domainMapVec, this`domainOffProcMapVec, this`ifaces,
               this`ifaceMapVec, this`ifaceOffProcMapVec, this`ifaceDistMapVec
      ensures domains.Keys == old(domains.Keys)
      ensures forall k :: k in domains ==> domains[k].(idLocal := old(domains[k].idLocal)) == old(domains[k])
      ensures IfacesEnumerated() && DomainsIndexed() && IfacesIndexed() && DistIndexed()
    {
      IndexDomainIfacesLocal();
      IndexDomainsLocal();
      IndexIfacesLocal();
    }

    /** indexDomainIfacesLocal: the interface ids of the domains' sides, numbered on first
        sight while the domains are visited in breadth-first order. */
    method IndexDomainIfacesLocal()
      modifies this`ifaceDistMapVec
      ensures DistIndexed()
    {
      ifaceDistMapVec := NumberSides(domains, gid);
    }

    /** indexDomainsLocal: each domain gets its breadth-first index as id_local. */
    method IndexDomainsLocal()
      modifies this`domains, this`domainMapVec, this`domainOffProcMapVec
      ensures domains.Keys == old(domains.Keys)
      ensures forall k :: k in domains ==> domains[k].(idLocal := old(domains[k].idLocal)) == old(domains[k])
      ensures DomainsIndexed()
      ensures old(IfacesEnumerated()) ==> IfacesEnumerated()
      ensures old(DistIndexed()) ==> DistIndexed()
    {
      var order, off, rev := Bfs(domains.Keys, DomainNbrs(domains), true);
      ghost var nbrs := DomainNbrs(domains);
      ghost var d0 := domains;
      domains := map k | k in domains :: WithLocal(domains[k], rev[k]);
      DomainsUpToLocal(d0, domains, gid);
      DistUpToLocal(d0, domains, gid, ifaceDistMapVec);
      domainMapVec := order;
      domainOffProcMapVec := off;
    }

    /** indexIfacesLocal: each interface set gets its breadth-first index as id_local. */
    method IndexIfacesLocal()
      modifies this`ifaces, this`ifaceMapVec, this`ifaceOffProcMapVec
      ensures ifaces.Keys == old(ifaces.Keys)
      ensures forall g :: g in ifaces ==> ifaces[g].(idLocal := old(ifaces[g].idLocal)) == old(ifaces[g])
      ensures IfacesIndexed()
      ensures old(IfacesEnumerated()) ==> IfacesEnumerated()
    {
      var order, off, rev := Bfs(ifaces.Keys, IfaceNbrs(ifaces, getNbrs), false);
      ghost var nbrs := IfaceNbrs(ifaces, getNbrs);
      ghost var i0 := ifaces;
      ifaces := map g | g in ifaces :: SetWithLocal(ifaces[g], rev[g]);
      IfacesUpToLocal(i0, ifaces, Entries(domains, gid, domains.Keys), getNbrs);
      forall j | 0 <= j < |order|
        ensures ifaces[order[j]].idLocal == Some(j)
      {
        assert order[j] in Elems(order);
      }
      ifaceMapVec := order;
      ifaceOffProcMapVec := off;
    }
  }
}
