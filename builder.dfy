/**
 * The molecule builder of molgen_gui.py: `add_functional_group`,
 * `is_valid_molecule` and `generate_molecule`, with the toolkit's chemistry
 * abstracted as in module Chem. The functions below state what one build
 * produces; the methods follow the source step by step and are proved to
 * produce exactly that.
 */
module Builder {
  import opened Wrappers
  import opened Chem
  import opened GroupField

  /** Why `add_functional_group` returned None (the error it shows). */
  datatype AddError =
    | InvalidFragment(smiles: string)      // MolFromSmiles gave None and a ValueError was raised
    | BondRejected(begin: int, end: int)   // AddBond raised

  /** Why one edit of the loop failed. */
  datatype EditFailure = AddFailed(cause: AddError) | NotSanitizable

  /** Why `generate_molecule` returned None (the error it shows). */
  datatype BuildError =
    | InvalidBase(smiles: string)
    | FailedGroup(position: nat, group: FunctionalGroup, cause: EditFailure)

  // ---------------------------------------------------------------------------
  // What one build produces
  // ---------------------------------------------------------------------------

  /**
   * `add_functional_group(mol, fragment, atomIdx)`: parse the fragment,
   * combine, then bond atom `atomIdx` to atom `GetNumAtoms()` of the
   * molecule before the merge.
   */
  function AddGroup(tk: Toolkit, mol: MolGraph, fragment: string, atomIdx: int): Result<MolGraph, AddError>
  {
    match tk.molFromSmiles(fragment)
    case None => Failure(InvalidFragment(fragment))
    case Some(fg) =>
      var combined := CombineMols(mol, fg);
      var n := NumAtoms(mol);
      if CanAddBond(combined, atomIdx, n) then
        Success(MolGraph(combined.atoms, combined.bonds + [Bond(atomIdx, n, Single)]))
      else
        Failure(BondRejected(atomIdx, n))
  }

  /** One pass of the loop body: add the group, then sanitize the result in place. */
  function Edit(tk: Toolkit, mol: MolGraph, g: FunctionalGroup): Result<MolGraph, EditFailure>
  {
    match AddGroup(tk, mol, g.fragment, g.index)
    case Failure(e) => Failure(AddFailed(e))
    case Success(merged) =>
      match tk.sanitize(merged)
      case None => Failure(NotSanitizable)
      case Some(clean) => Success(clean)
  }

  /** The outcome of the first `k` edits applied to `base`, stopping at the first failure. */
  function ApplyFirst(tk: Toolkit, base: MolGraph, groups: seq<FunctionalGroup>, k: nat): Result<MolGraph, BuildError>
    requires k <= |groups|
  {
    if k == 0 then Success(base)
    else
      match ApplyFirst(tk, base, groups, k - 1)
      case Failure(e) => Failure(e)
      case Success(m) =>
        match Edit(tk, m, groups[k - 1])
        case Failure(c) => Failure(FailedGroup(k - 1, groups[k - 1], c))
        case Success(next) => Success(next)
  }

  /** `generate_molecule(baseSmiles, groups)`. */
  function Build(tk: Toolkit, baseSmiles: string, groups: seq<FunctionalGroup>): Result<MolGraph, BuildError>
  {
    match tk.molFromSmiles(baseSmiles)
    case None => Failure(InvalidBase(baseSmiles))
    case Some(base) => ApplyFirst(tk, base, groups, |groups|)
  }

  // ---------------------------------------------------------------------------
  // One functional group
  // ---------------------------------------------------------------------------

  /**
   * A successful addition keeps the molecule's atoms and bonds, appends the
   * fragment's atoms after them, and adds exactly one SINGLE bond, from
   * `atomIdx` to the fragment's first atom.
   */
  lemma AddGroupLayout(tk: Toolkit, mol: MolGraph, fragment: string, atomIdx: int)
    requires AddGroup(tk, mol, fragment, atomIdx).Success?
    ensures tk.molFromSmiles(fragment).Some?
    ensures var fg := tk.molFromSmiles(fragment).value;
      var merged := AddGroup(tk, mol, fragment, atomIdx).value;
      var n := NumAtoms(mol);
      |fg.atoms| > 0 &&
      NumAtoms(merged) == n + NumAtoms(fg) &&
      merged.atoms[..n] == mol.atoms && merged.atoms[n..] == fg.atoms &&
      merged.atoms[n] == fg.atoms[0] &&
      |merged.bonds| == |mol.bonds| + |fg.bonds| + 1 &&
      merged.bonds[..|mol.bonds|] == mol.bonds &&
      merged.bonds[|merged.bonds| - 1] == Bond(atomIdx, n, Single) &&
      0 <= atomIdx < NumAtoms(merged) && atomIdx != n
  {
    var fg := tk.molFromSmiles(fragment).value;
    var combined := CombineMols(mol, fg);
    CombineMolsLayout(mol, fg);
    var merged := AddGroup(tk, mol, fragment, atomIdx).value;
    assert merged.bonds[..|mol.bonds|] == combined.bonds[..|mol.bonds|];
  }

  /**
   * The bonded pairs after a successful addition: those of the molecule,
   * those of the fragment renumbered, and the one new pair.
   */
  lemma AddGroupBonds(tk: Toolkit, mol: MolGraph, fragment: string, atomIdx: int, i: int, j: int)
    requires AddGroup(tk, mol, fragment, atomIdx).Success?
    ensures tk.molFromSmiles(fragment).Some?
    ensures var fg := tk.molFromSmiles(fragment).value;
      var n := NumAtoms(mol);
      HasBond(AddGroup(tk, mol, fragment, atomIdx).value, i, j) <==>
        HasBond(mol, i, j) ||
        (i >= n && j >= n && HasBond(fg, i - n, j - n)) ||
        Joins(Bond(atomIdx, n, Single), i, j)
  {
    var fg := tk.molFromSmiles(fragment).value;
    var n := NumAtoms(mol);
    CombineMolsBonds(mol, fg, i, j);
    HasBondAppend(CombineMols(mol, fg), Bond(atomIdx, n, Single), i, j);
  }

  /**
   * When the fragment parses, the addition is accepted exactly when the
   * fragment has atoms and `atomIdx` names either an atom of the molecule or
   * a fragment atom other than the first that is not already bonded to it.
   */
  lemma AddGroupAccepted(tk: Toolkit, mol: MolGraph, fragment: string, atomIdx: int)
    requires WellFormed(mol)
    requires tk.molFromSmiles(fragment).Some?
    ensures var fg := tk.molFromSmiles(fragment).value;
      var n := NumAtoms(mol);
      AddGroup(tk, mol, fragment, atomIdx).Success? <==>
        |fg.atoms| > 0 &&
        (0 <= atomIdx < n || (n < atomIdx < n + |fg.atoms| && !HasBond(fg, atomIdx - n, 0)))
  {
    var fg := tk.molFromSmiles(fragment).value;
    var n := NumAtoms(mol);
    CombineMolsBonds(mol, fg, atomIdx, n);
  }

  /**
   * Adding a group to a well-formed molecule, with a well-formed fragment,
   * gives a well-formed molecule.
   */
  lemma AddGroupWellFormed(tk: Toolkit, mol: MolGraph, fragment: string, atomIdx: int)
    requires WellFormed(mol)
    requires tk.molFromSmiles(fragment).Some? && WellFormed(tk.molFromSmiles(fragment).value)
    requires AddGroup(tk, mol, fragment, atomIdx).Success?
    ensures WellFormed(AddGroup(tk, mol, fragment, atomIdx).value)
  {
    var fg := tk.molFromSmiles(fragment).value;
    var merged := AddGroup(tk, mol, fragment, atomIdx).value;
    var combined := CombineMols(mol, fg);
    forall k | 0 <= k < |merged.bonds|
      ensures merged.bonds[k].begin < |merged.atoms| && merged.bonds[k].end < |merged.atoms|
    {
      if k < |mol.bonds| {
        assert merged.bonds[k] == mol.bonds[k];
      } else if k < |combined.bonds| {
        assert merged.bonds[k] == ShiftBonds(fg.bonds, |mol.atoms|)[k - |mol.bonds|];
        assert fg.bonds[k - |mol.bonds|].begin < |fg.atoms|;
        assert fg.bonds[k - |mol.bonds|].end < |fg.atoms|;
      }
    }
  }

  /**
   * The intended use: an index into the molecule and a non-empty fragment
   * always give one new bond tying that atom to the fragment's first atom,
   * with no other bond between the two parts.
   */
  lemma AttachToMolecule(tk: Toolkit, mol: MolGraph, fragment: string, atomIdx: int)
    requires WellFormed(mol)
    requires tk.molFromSmiles(fragment).Some? && |tk.molFromSmiles(fragment).value.atoms| > 0
    requires 0 <= atomIdx < NumAtoms(mol)
    ensures AddGroup(tk, mol, fragment, atomIdx).Success?
    ensures forall i, j :: 0 <= i < NumAtoms(mol) <= j ==>
      (HasBond(AddGroup(tk, mol, fragment, atomIdx).value, i, j) <==> i == atomIdx && j == NumAtoms(mol))
  {
    AddGroupAccepted(tk, mol, fragment, atomIdx);
    forall i, j | 0 <= i < NumAtoms(mol) <= j
      ensures HasBond(AddGroup(tk, mol, fragment, atomIdx).value, i, j) <==> i == atomIdx && j == NumAtoms(mol)
    {
      AddGroupBonds(tk, mol, fragment, atomIdx, i, j);
    }
  }

  /**
   * An index equal to the molecule's atom count names the fragment's first
   * atom, the other end of the new bond: the bond would join that atom to
   * itself, and the addition fails.
   */
  lemma AttachAtCountRefused(tk: Toolkit, mol: MolGraph, fragment: string)
    ensures AddGroup(tk, mol, fragment, NumAtoms(mol)).Failure?
  {
  }

  /**
   * An index past the molecule's atom count can be accepted: the new bond
   * then joins two atoms of the fragment, and nothing joins the fragment to
   * the molecule.
   */
  lemma AttachInsideFragment(tk: Toolkit, mol: MolGraph, fragment: string, atomIdx: int)
    requires WellFormed(mol)
    requires AddGroup(tk, mol, fragment, atomIdx).Success?
    requires atomIdx >= NumAtoms(mol)
    ensures forall i, j :: 0 <= i < NumAtoms(mol) <= j ==>
      !HasBond(AddGroup(tk, mol, fragment, atomIdx).value, i, j)
  {
    forall i, j | 0 <= i < NumAtoms(mol) <= j
      ensures !HasBond(AddGroup(tk, mol, fragment, atomIdx).value, i, j)
    {
      AddGroupBonds(tk, mol, fragment, atomIdx, i, j);
    }
  }

  /** The addition fails without a bond whenever the fragment does not parse. */
  lemma AddGroupInvalidFragment(tk: Toolkit, mol: MolGraph, fragment: string, atomIdx: int)
    requires tk.molFromSmiles(fragment).None?
    ensures AddGroup(tk, mol, fragment, atomIdx) == Failure(InvalidFragment(fragment))
  {
  }

  // ---------------------------------------------------------------------------
  // The whole build
  // ---------------------------------------------------------------------------

  /** A base that does not parse ends the build before any edit, whatever the edits are. */
  lemma BuildInvalidBase(tk: Toolkit, baseSmiles: string, groups: seq<FunctionalGroup>)
    requires tk.molFromSmiles(baseSmiles).None?
    ensures Build(tk, baseSmiles, groups) == Failure(InvalidBase(baseSmiles))
  {
  }

  /** With no edits the parsed base comes back as it was parsed. */
  lemma BuildNoGroups(tk: Toolkit, baseSmiles: string)
    requires tk.molFromSmiles(baseSmiles).Some?
    ensures Build(tk, baseSmiles, []) == Success(tk.molFromSmiles(baseSmiles).value)
  {
  }

  /** Once an edit has failed, no later edit changes the outcome. */
  lemma {:induction false} FailurePersists(tk: Toolkit, base: MolGraph, groups: seq<FunctionalGroup>, k: nat, j: nat)
    requires k <= j <= |groups|
    requires ApplyFirst(tk, base, groups, k).Failure?
    ensures ApplyFirst(tk, base, groups, j) == ApplyFirst(tk, base, groups, k)
    decreases j
  {
    if j > k {
      FailurePersists(tk, base, groups, k, j - 1);
    }
  }

  /**
   * Every failure of the first `k` edits is an edit failure that names the
   * first edit that failed: all edits before it succeeded.
   */
  lemma {:induction false} FailureIsFirst(tk: Toolkit, base: MolGraph, groups: seq<FunctionalGroup>, k: nat)
    requires k <= |groups|
    requires ApplyFirst(tk, base, groups, k).Failure?
    ensures var e := ApplyFirst(tk, base, groups, k).error;
      e.FailedGroup? && e.position < k && e.group == groups[e.position] &&
      ApplyFirst(tk, base, groups, e.position).Success? &&
      Edit(tk, ApplyFirst(tk, base, groups, e.position).value, groups[e.position]) == Failure(e.cause)
    decreases k
  {
    if ApplyFirst(tk, base, groups, k - 1).Failure? {
      FailureIsFirst(tk, base, groups, k - 1);
    }
  }

  /**
   * The build fails at edit `pos` with cause `c` exactly when the base
   * parses, every edit before `pos` succeeds, and edit `pos` fails with `c`
   * on the molecule they produced.
   */
  lemma BuildFailsAt(tk: Toolkit, baseSmiles: string, groups: seq<FunctionalGroup>, pos: nat, g: FunctionalGroup, c: EditFailure)
    ensures (Build(tk, baseSmiles, groups) == Failure(FailedGroup(pos, g, c))) <==>
      (tk.molFromSmiles(baseSmiles).Some? && pos < |groups| && g == groups[pos] &&
       ApplyFirst(tk, tk.molFromSmiles(baseSmiles).value, groups, pos).Success? &&
       Edit(tk, ApplyFirst(tk, tk.molFromSmiles(baseSmiles).value, groups, pos).value, groups[pos]) == Failure(c))
  {
    if Build(tk, baseSmiles, groups) == Failure(FailedGroup(pos, g, c)) {
      FailureIsFirst(tk, tk.molFromSmiles(baseSmiles).value, groups, |groups|);
    }
    if tk.molFromSmiles(baseSmiles).Some? && pos < |groups| && g == groups[pos] &&
       ApplyFirst(tk, tk.molFromSmiles(baseSmiles).value, groups, pos).Success? &&
       Edit(tk, ApplyFirst(tk, tk.molFromSmiles(baseSmiles).value, groups, pos).value, groups[pos]) == Failure(c) {
      BuildStopsAtFailure(tk, baseSmiles, groups, pos);
    }
  }

  /**
   * When all the edits succeed, each of them succeeded on the molecule left
   * by the ones before: the result is the last link of a chain of edits.
   */
  lemma ApplySucceeds(tk: Toolkit, base: MolGraph, groups: seq<FunctionalGroup>)
    requires ApplyFirst(tk, base, groups, |groups|).Success?
    ensures forall k :: 0 <= k <= |groups| ==> ApplyFirst(tk, base, groups, k).Success?
    ensures forall k :: 0 <= k < |groups| ==>
      Edit(tk, ApplyFirst(tk, base, groups, k).value, groups[k]) == Success(ApplyFirst(tk, base, groups, k + 1).value)
  {
    forall k | 0 <= k <= |groups|
      ensures ApplyFirst(tk, base, groups, k).Success?
    {
      if ApplyFirst(tk, base, groups, k).Failure? {
        FailurePersists(tk, base, groups, k, |groups|);
      }
    }
    forall k | 0 <= k < |groups|
      ensures Edit(tk, ApplyFirst(tk, base, groups, k).value, groups[k]) == Success(ApplyFirst(tk, base, groups, k + 1).value)
    {
      assert ApplyFirst(tk, base, groups, k).Success? && ApplyFirst(tk, base, groups, k + 1).Success?;
    }
  }

  /**
   * A successful build applied every edit to the parsed base; no partially
   * edited molecule is ever returned.
   */
  lemma BuildSucceeds(tk: Toolkit, baseSmiles: string, groups: seq<FunctionalGroup>)
    requires Build(tk, baseSmiles, groups).Success?
    ensures tk.molFromSmiles(baseSmiles).Some?
    ensures forall k {:trigger groups[k]} :: 0 <= k < |groups| ==>
      ApplyFirst(tk, tk.molFromSmiles(baseSmiles).value, groups, k).Success? &&
      ApplyFirst(tk, tk.molFromSmiles(baseSmiles).value, groups, k + 1).Success? &&
      Edit(tk, ApplyFirst(tk, tk.molFromSmiles(baseSmiles).value, groups, k).value, groups[k]) ==
        Success(ApplyFirst(tk, tk.molFromSmiles(baseSmiles).value, groups, k + 1).value)
    ensures Build(tk, baseSmiles, groups) == ApplyFirst(tk, tk.molFromSmiles(baseSmiles).value, groups, |groups|)
  {
    ApplySucceeds(tk, tk.molFromSmiles(baseSmiles).value, groups);
  }

  /** A build never fails at an edit it was not given, and never succeeds past a failed one. */
  lemma BuildStopsAtFailure(tk: Toolkit, baseSmiles: string, groups: seq<FunctionalGroup>, pos: nat)
    requires tk.molFromSmiles(baseSmiles).Some?
    requires pos < |groups|
    requires ApplyFirst(tk, tk.molFromSmiles(baseSmiles).value, groups, pos).Success?
    requires Edit(tk, ApplyFirst(tk, tk.molFromSmiles(baseSmiles).value, groups, pos).value, groups[pos]).Failure?
    ensures Build(tk, baseSmiles, groups) ==
      Failure(FailedGroup(pos, groups[pos],
        Edit(tk, ApplyFirst(tk, tk.molFromSmiles(baseSmiles).value, groups, pos).value, groups[pos]).error))
  {
    FailurePersists(tk, tk.molFromSmiles(baseSmiles).value, groups, pos + 1, |groups|);
  }

  // ---------------------------------------------------------------------------
  // The source's procedures
  // ---------------------------------------------------------------------------

  /** `add_functional_group(mol, fg_smiles, atom_idx)`; `mol` itself is not changed. */
  method AddFunctionalGroup(tk: Toolkit, mol: Molecule, fgSmiles: string, atomIdx: int)
    returns (r: Result<Molecule, AddError>)
    ensures r.Success? == AddGroup(tk, mol.Graph(), fgSmiles, atomIdx).Success?
    ensures r.Success? ==> fresh(r.value) && r.value.Graph() == AddGroup(tk, mol.Graph(), fgSmiles, atomIdx).value
    ensures r.Failure? ==> r.error == AddGroup(tk, mol.Graph(), fgSmiles, atomIdx).error
  {
    var fg := MolFromSmiles(tk, fgSmiles);
    if fg == null {
      return Failure(InvalidFragment(fgSmiles));
    }
    var combined := Combine(mol, fg);
    var rwMol := new Molecule(combined.Graph());
    var added := rwMol.AddBond(atomIdx, mol.GetNumAtoms(), Single);
    if !added {
      return Failure(BondRejected(atomIdx, mol.GetNumAtoms()));
    }
    var out := rwMol.GetMol();
    return Success(out);
  }

  /** `is_valid_molecule(mol)`: sanitize in place, turning a raised error into false. */
  method IsValidMolecule(tk: Toolkit, mol: Molecule) returns (valid: bool)
    modifies mol
    ensures valid == tk.sanitize(old(mol.Graph())).Some?
    ensures valid ==> mol.Graph() == tk.sanitize(old(mol.Graph())).value
  {
    valid := SanitizeMol(tk, mol);
  }

  /**
   * `generate_molecule(base_smiles, functional_groups)`: the result is
   * `Build`'s. `attempted` counts the calls to `AddFunctionalGroup`: none
   * when the base is invalid, and none after the first failing edit.
   */
  method GenerateMolecule(tk: Toolkit, baseSmiles: string, groups: seq<FunctionalGroup>)
    returns (r: Result<Molecule, BuildError>, ghost attempted: nat)
    ensures r.Success? == Build(tk, baseSmiles, groups).Success?
    ensures r.Success? ==> fresh(r.value) && r.value.Graph() == Build(tk, baseSmiles, groups).value
    ensures r.Failure? ==> r.error == Build(tk, baseSmiles, groups).error
    ensures attempted ==
      match Build(tk, baseSmiles, groups)
      case Success(_) => |groups|
      case Failure(InvalidBase(_)) => 0
      case Failure(FailedGroup(pos, _, _)) => pos + 1
  {
    attempted := 0;
    var mol := MolFromSmiles(tk, baseSmiles);
    if mol == null {
      return Failure(InvalidBase(baseSmiles)), attempted;
    }
    ghost var base := mol.Graph();
    var i := 0;
    while i < |groups|
      invariant 0 <= i <= |groups|
      invariant attempted == i
      invariant fresh(mol)
      invariant ApplyFirst(tk, base, groups, i) == Success(mol.Graph())
    {
      var g := groups[i];
      var added := AddFunctionalGroup(tk, mol, g.fragment, g.index);
      attempted := attempted + 1;
      if added.Failure? {
        FailurePersists(tk, base, groups, i + 1, |groups|);
        return Failure(FailedGroup(i, g, AddFailed(added.error))), attempted;
      }
      mol := added.value;
      var valid := IsValidMolecule(tk, mol);
      if !valid {
        FailurePersists(tk, base, groups, i + 1, |groups|);
        return Failure(FailedGroup(i, g, NotSanitizable)), attempted;
      }
      i := i + 1;
    }
    return Success(mol), attempted;
  }

  // ---------------------------------------------------------------------------
  // From the form to a molecule
  // ---------------------------------------------------------------------------

  /** Why pressing the button produced no molecule. */
  datatype FormError = FieldRejected(field: FieldError) | BuildFailed(build: BuildError)

  /**
   * Lines 52-56 of `generate_and_display`: the field is parsed first, and
   * only a parsed field reaches `generate_molecule`.
   */
  function FormResult(tk: Toolkit, baseText: string, fieldText: string): Result<MolGraph, FormError>
  {
    match ParseFunctionalGroups(fieldText)
    case Failure(e) => Failure(FieldRejected(e))
    case Success(groups) =>
      match Build(tk, baseText, groups)
      case Failure(e) => Failure(BuildFailed(e))
      case Success(m) => Success(m)
  }

  /** A bad index in the field wins over a bad base: the base is never parsed. */
  lemma FieldErrorFirst(tk: Toolkit, tk': Toolkit, baseText: string, baseText': string, fieldText: string)
    requires ParseFunctionalGroups(fieldText).Failure?
    ensures FormResult(tk, baseText, fieldText) == FormResult(tk', baseText', fieldText)
    ensures FormResult(tk, baseText, fieldText) == Failure(FieldRejected(ParseFunctionalGroups(fieldText).error))
  {
  }

  /** An empty field leaves the parsed base as the result. */
  lemma EmptyFieldKeepsBase(tk: Toolkit, baseText: string)
    requires tk.molFromSmiles(baseText).Some?
    ensures FormResult(tk, baseText, "") == Success(tk.molFromSmiles(baseText).value)
  {
    ParseEmptyField();
  }

  /** The form path as the source runs it: parse the field, then `GenerateMolecule`. */
  method GenerateFromForm(tk: Toolkit, baseText: string, fieldText: string) returns (r: Result<Molecule, FormError>)
    ensures r.Success? == FormResult(tk, baseText, fieldText).Success?
    ensures r.Success? ==> fresh(r.value) && r.value.Graph() == FormResult(tk, baseText, fieldText).value
    ensures r.Failure? ==> r.error == FormResult(tk, baseText, fieldText).error
  {
    var parsed := ParseFunctionalGroups(fieldText);
    if parsed.Failure? {
      return Failure(FieldRejected(parsed.error));
    }
    var built, _ := GenerateMolecule(tk, baseText, parsed.value);
    if built.Failure? {
      return Failure(BuildFailed(built.error));
    }
    return Success(built.value);
  }
}
