/**
 * The slice of the RDKit toolkit that the molecule builder calls. Parsing a
 * SMILES string and sanitizing a molecule are chemistry the builder cannot
 * see, so they are supplied as opaque functions in a `Toolkit` value.
 * Combining two molecules and adding a bond are graph edits whose effect on
 * the atom list and the bond list is stated here.
 */
module Chem {
  import opened Wrappers

  /** An atom as the toolkit stores it. Only its position in the atom list matters to the builder. */
  datatype Atom = Atom(payload: string)

  datatype BondType = Single | Double | Triple | Aromatic

  /** A bond between the atoms at positions `begin` and `end` of the atom list. */
  datatype Bond = Bond(begin: nat, end: nat, kind: BondType)

  /** The state of a molecule: its atoms in index order and its bonds in insertion order. */
  datatype MolGraph = MolGraph(atoms: seq<Atom>, bonds: seq<Bond>)

  /**
   * The toolkit's chemistry: `molFromSmiles` is `Chem.MolFromSmiles` (None
   * where RDKit returns None), `sanitize` is `Chem.SanitizeMol` (the
   * molecule it leaves behind, or None where it raises).
   */
  datatype Toolkit = Toolkit(molFromSmiles: string -> Option<MolGraph>, sanitize: MolGraph -> Option<MolGraph>)

  function NumAtoms(m: MolGraph): nat
  {
    |m.atoms|
  }

  predicate Joins(b: Bond, i: int, j: int)
  {
    (b.begin == i && b.end == j) || (b.begin == j && b.end == i)
  }

  /** Every bond of `m` joins two of its atoms, as in every molecule the toolkit builds. */
  predicate WellFormed(m: MolGraph)
  {
    forall k :: 0 <= k < |m.bonds| ==> m.bonds[k].begin < |m.atoms| && m.bonds[k].end < |m.atoms|
  }

  /** Some bond of `m` joins atoms `i` and `j`. */
  predicate HasBond(m: MolGraph, i: int, j: int)
  {
    exists k :: 0 <= k < |m.bonds| && Joins(m.bonds[k], i, j)
  }

  /** The bonds renumbered for atoms that moved `offset` places along. */
  function ShiftBonds(bonds: seq<Bond>, offset: nat): seq<Bond>
  {
    seq(|bonds|, k requires 0 <= k < |bonds| =>
      Bond(bonds[k].begin + offset, bonds[k].end + offset, bonds[k].kind))
  }

  /** `Chem.CombineMols(a, b)`: the disjoint union, `b`'s atoms numbered after `a`'s. */
  function CombineMols(a: MolGraph, b: MolGraph): MolGraph
  {
    MolGraph(a.atoms + b.atoms, a.bonds + ShiftBonds(b.bonds, |a.atoms|))
  }

  /**
   * What `AddBond(i, j, ...)` demands before it adds anything: both indices
   * name atoms, they differ, and no bond joins them yet. Otherwise it raises.
   */
  predicate CanAddBond(m: MolGraph, i: int, j: int)
  {
    0 <= i < |m.atoms| && 0 <= j < |m.atoms| && i != j && !HasBond(m, i, j)
  }

  /** The combined molecule keeps `a` as a prefix and holds `b` after it, bond for bond. */
  lemma CombineMolsLayout(a: MolGraph, b: MolGraph)
    ensures var c := CombineMols(a, b);
      NumAtoms(c) == NumAtoms(a) + NumAtoms(b) &&
      c.atoms[..|a.atoms|] == a.atoms && c.atoms[|a.atoms|..] == b.atoms &&
      |c.bonds| == |a.bonds| + |b.bonds| && c.bonds[..|a.bonds|] == a.bonds
  {
    var c := CombineMols(a, b);
    assert c.atoms[..|a.atoms|] == a.atoms;
    assert c.atoms[|a.atoms|..] == b.atoms;
    assert c.bonds[..|a.bonds|] == a.bonds;
  }

  /**
   * Combining creates no bond between the two parts: a bond of the union
   * is either a bond of `a` or a renumbered bond of `b`.
   */
  lemma CombineMolsBonds(a: MolGraph, b: MolGraph, i: int, j: int)
    ensures HasBond(CombineMols(a, b), i, j) <==>
      HasBond(a, i, j) ||
      (i >= |a.atoms| && j >= |a.atoms| && HasBond(b, i - |a.atoms|, j - |a.atoms|))
  {
    var c := CombineMols(a, b);
    var n := |a.atoms|;
    var shifted := ShiftBonds(b.bonds, n);
    if HasBond(c, i, j) {
      var k :| 0 <= k < |c.bonds| && Joins(c.bonds[k], i, j);
      if k < |a.bonds| {
        assert c.bonds[k] == a.bonds[k];
      } else {
        assert c.bonds[k] == shifted[k - |a.bonds|];
        assert Joins(b.bonds[k - |a.bonds|], i - n, j - n);
      }
    }
    if HasBond(a, i, j) {
      var k :| 0 <= k < |a.bonds| && Joins(a.bonds[k], i, j);
      assert c.bonds[k] == a.bonds[k];
    }
    if i >= n && j >= n && HasBond(b, i - n, j - n) {
      var k :| 0 <= k < |b.bonds| && Joins(b.bonds[k], i - n, j - n);
      assert c.bonds[|a.bonds| + k] == shifted[k];
      assert Joins(c.bonds[|a.bonds| + k], i, j);
    }
  }

  /** Appending a bond adds exactly the pair it joins to the bonded pairs. */
  lemma HasBondAppend(m: MolGraph, b: Bond, i: int, j: int)
    ensures HasBond(MolGraph(m.atoms, m.bonds + [b]), i, j) <==> HasBond(m, i, j) || Joins(b, i, j)
  {
    var m' := MolGraph(m.atoms, m.bonds + [b]);
    if HasBond(m, i, j) {
      var k :| 0 <= k < |m.bonds| && Joins(m.bonds[k], i, j);
      assert m'.bonds[k] == m.bonds[k];
    }
    if Joins(b, i, j) {
      assert m'.bonds[|m.bonds|] == b;
    }
    if HasBond(m', i, j) {
      var k :| 0 <= k < |m'.bonds| && Joins(m'.bonds[k], i, j);
      if k < |m.bonds| { assert m'.bonds[k] == m.bonds[k]; }
    }
  }

  /**
   * A toolkit molecule object (RDKit's `Mol` and its editable subclass
   * `RWMol`). Its atoms and bonds change in place under `AddBond` and
   * under `SanitizeMol`.
   */
  class Molecule {
    var atoms: seq<Atom>
    var bonds: seq<Bond>

    /** `Chem.RWMol(m)`, `Chem.Mol(m)`: a new object holding a copy of `m`. */
    constructor (m: MolGraph)
      ensures Graph() == m
    {
      atoms := m.atoms;
      bonds := m.bonds;
    }

    /** The molecule's current state. */
    function Graph(): MolGraph
      reads this
    {
      MolGraph(atoms, bonds)
    }

    /** `GetNumAtoms()`. */
    function GetNumAtoms(): nat
      reads this
    {
      |atoms|
    }

    /**
     * `AddBond(i, j, kind)`: append one bond when `CanAddBond` holds;
     * otherwise the toolkit raises (`ok` is false) and nothing changes.
     */
    method AddBond(i: int, j: int, kind: BondType) returns (ok: bool)
      modifies this
      ensures ok == CanAddBond(old(Graph()), i, j)
      ensures ok ==> Graph() == MolGraph(old(atoms), old(bonds) + [Bond(i, j, kind)])
      ensures !ok ==> Graph() == old(Graph())
    {
      ok := CanAddBond(Graph(), i, j);
      if ok {
        bonds := bonds + [Bond(i, j, kind)];
      }
    }

    /** `GetMol()`: a new read-only molecule object with the same atoms and bonds. */
    method GetMol() returns (m: Molecule)
      ensures fresh(m) && m.Graph() == Graph()
    {
      m := new Molecule(Graph());
    }
  }

  /** `Chem.MolFromSmiles(smiles)`: a new object, or null where RDKit returns None. */
  method MolFromSmiles(tk: Toolkit, smiles: string) returns (m: Molecule?)
    ensures m == null <==> tk.molFromSmiles(smiles).None?
    ensures m != null ==> fresh(m) && m.Graph() == tk.molFromSmiles(smiles).value
  {
    match tk.molFromSmiles(smiles)
    case None => m := null;
    case Some(g) => m := new Molecule(g);
  }

  /** `Chem.CombineMols(a, b)`: a new object, the arguments untouched. */
  method Combine(a: Molecule, b: Molecule) returns (c: Molecule)
    ensures fresh(c) && c.Graph() == CombineMols(a.Graph(), b.Graph())
  {
    c := new Molecule(CombineMols(a.Graph(), b.Graph()));
  }

  /**
   * `Chem.SanitizeMol(m)`: rewrites `m` in place; `ok` is false where the
   * toolkit raises. What a failed sanitization leaves behind is never used
   * by the builder, and the model leaves `m` as it was.
   */
  method SanitizeMol(tk: Toolkit, m: Molecule) returns (ok: bool)
    modifies m
    ensures ok == tk.sanitize(old(m.Graph())).Some?
    ensures ok ==> m.Graph() == tk.sanitize(old(m.Graph())).value
    ensures !ok ==> m.Graph() == old(m.Graph())
  {
    match tk.sanitize(m.Graph())
    case None => ok := false;
    case Some(g) =>
      ok := true;
      m.atoms, m.bonds := g.atoms, g.bonds;
  }
}
