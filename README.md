# MolGen molecule builder, modelled in Dafny

MolGen is a small desktop form over the RDKit toolkit. The user types a base
molecule as a SMILES string and a list of functional groups written
`SMILES:index, SMILES:index, ...`. The program attaches each group to the
base, one after the other, and shows the result.

Two pieces of the program's own logic are modelled here.

- **The functional-group field parser** (`molgen_gui.py` lines 53-54). The
  field text is split on commas. Tokens without a colon are dropped. Each
  kept token becomes a pair: the text before its first colon, and Python's
  `int()` of the text between its first and second colon. Python's
  `str.split` and `int()` are modelled exactly for ASCII text (module
  `PyText`). The parser is `GroupField.ParseFunctionalGroups`.
- **The molecule builder** (`add_functional_group`, `is_valid_molecule`,
  `generate_molecule`, lines 8-42). RDKit's SMILES parser and its
  sanitizer are chemistry this program cannot see. They are opaque
  functions in a `Chem.Toolkit` value. `CombineMols` and `AddBond` are graph
  edits and are stated on a molecule value `Chem.MolGraph` (atoms in index
  order, bonds in insertion order):
  - `CombineMols` is the disjoint union, with the second molecule's atoms
    numbered after the first's;
  - `AddBond(i, j)` appends one bond when both indices name atoms, differ,
    and are not yet bonded, and raises otherwise.

  RDKit objects that the source changes in place (the `RWMol` that receives
  the bond, and the `Mol` that `SanitizeMol` rewrites) are the class
  `Chem.Molecule`. The source's three procedures are methods over it
  (`Builder.AddFunctionalGroup`, `Builder.IsValidMolecule`,
  `Builder.GenerateMolecule`). `AddFunctionalGroup` is proved equal to the
  specification function `AddGroup`. `IsValidMolecule` is proved equal to
  the toolkit's `sanitize` verdict. The loop of `GenerateMolecule` keeps its
  molecule equal to `ApplyFirst` of the edits so far, and its result is
  proved equal to `Build`. The properties are proved as lemmas about those
  functions.

Error reporting (the source's `messagebox.showerror` followed by
`return None`) becomes a returned `Failure` value. The value carries the
data the message shows. For a failed edit it also carries the position of
that edit in the list.

The field parser reports errors differently. The `ValueError` that `int()`
raises at line 54 is not caught: it escapes `generate_and_display`, Tk
prints a traceback, and no dialog is shown. `Builder.FormError.FieldRejected`
stands for that escaped exception; `generate_molecule` is never called.

The specification functions the lemmas are about, with the lines each one
models:

- `PyText.Split` and `PyText.Join`: `str.split` and `str.join` (lines 53-54).
- `PyText.ParseInt`: Python's `int()` of a string (line 54).
- `GroupField.Kept`: the `if ':' in fg` filter of the comprehension (line 54).
- `GroupField.ParseToken`: `(fg.split(':')[0], int(fg.split(':')[1]))` for one kept token (line 54).
- `GroupField.ParseTokens`: the whole comprehension, evaluated left to right (line 54).
- `GroupField.ParseFunctionalGroups`: the field split on commas and then parsed (lines 53-54).
- `Chem.CombineMols`: `Chem.CombineMols` (line 13).
- `Chem.CanAddBond`: when `AddBond` accepts its indices (line 15).
- `Builder.AddGroup`: `add_functional_group` (lines 8-19).
- `Builder.Edit`: one loop iteration, the addition followed by `is_valid_molecule` (lines 37-38).
- `Builder.ApplyFirst`: the loop run over the first `k` edits (lines 36-40).
- `Builder.Build`: `generate_molecule` (lines 30-42).
- `Builder.FormResult`: `generate_and_display` up to the build (lines 52-56).

`PyText.SplitFirst` and `PyText.SplitRest` only unfold `Split` one step.
The reading of a token that does not depend on how `Split` is written is
`GroupField.ParseTokenOf`.

Modules: `Wrappers` (Option, Result), `PyText`, `GroupField`, `Chem`,
`Builder`, one file each.

## Model

| member | source | states |
|---|---|---|
| PyText.Split | molgen_gui.py:53-54 | `s.split(sep)` always yields at least one piece, and at least two exactly when `sep` occurs in `s` |
| PyText.SplitFirst | molgen_gui.py:54 | the first piece of a split is the text before the first separator (`fg.split(':')[0]`) |
| PyText.SplitRest | molgen_gui.py:54 | the pieces after the first are the split of the text after the first separator, so piece 1 is the text between the first and second colon |
| PyText.SplitPiecesFree | molgen_gui.py:53-54 | no piece of a split contains the separator |
| PyText.SplitJoin | molgen_gui.py:53-54 | joining the pieces with the separator gives back the original text |
| PyText.JoinSplit | molgen_gui.py:53-54 | splitting a join of separator-free pieces gives back exactly those pieces; with SplitJoin, split and join are inverse |
| PyText.FirstIndexAfterFree | molgen_gui.py:54 | in `p + sep + rest` with `p` separator-free, the first separator is at position `|p|` |
| PyText.NatToDigitsCorrect | molgen_gui.py:54 | the decimal digits of `n` form a non-empty run of digits whose value is `n` |
| PyText.AllDigitsGroup | molgen_gui.py:54 | a non-empty run of plain digits is an integer literal's digit group |
| PyText.DigitsOfNat | molgen_gui.py:54 | the decimal digits of `n` form a digit group ending in a digit whose value is `n` |
| PyText.StripUnpadded | molgen_gui.py:54 | text that neither begins nor ends with whitespace is left alone by the strip |
| PyText.DigitGroupEnds | molgen_gui.py:54 | a digit group ends in a digit |
| PyText.ParseDigits | molgen_gui.py:54 | a digit group is accepted with its value |
| PyText.ParseNegatedDigits | molgen_gui.py:54 | a digit group after a minus sign is accepted with its value negated |
| PyText.ParseShow | molgen_gui.py:54 | `int(str(n)) == n` for every integer, negatives included |
| PyText.StripLeftSpaces | molgen_gui.py:54 | leading whitespace is skipped by `int()`'s left strip |
| PyText.StripRightSpaces | molgen_gui.py:54 | trailing whitespace is skipped by `int()`'s right strip |
| PyText.StripLeftAppend | molgen_gui.py:54 | the left strip of `s + spaces` passes over the spaces unless `s` is itself blank |
| PyText.StripLeftAllSpace | molgen_gui.py:54 | blank text strips to the empty text |
| PyText.StripLeftNotAllSpace | molgen_gui.py:54 | text that is not blank strips to text starting with a non-space |
| PyText.StripRightKeepsHead | molgen_gui.py:54 | the right strip never removes a non-space first character |
| PyText.StripPadded | molgen_gui.py:54 | whitespace added on both sides does not change the stripped text |
| PyText.ParseIntPadded | molgen_gui.py:54 | `int(ws1 + s + ws2) == int(s)` for any whitespace `ws1`, `ws2` |
| PyText.ParseIntBlank | molgen_gui.py:54 | `int()` of empty or blank text raises |
| PyText.ParseIntDigit | molgen_gui.py:54 | a single digit is accepted with its own value |
| PyText.ParseIntAccepts | molgen_gui.py:54 | `int("1") == 1` |
| PyText.ParseIntAcceptsPadded | molgen_gui.py:54 | `int(" 2 ") == 2` |
| PyText.ParseIntAcceptsNegative | molgen_gui.py:54 | `int("-3") == -3` |
| PyText.ParseIntAcceptsZeros | molgen_gui.py:54 | leading zeros and a plus sign are accepted: `int("+007") == 7` |
| PyText.ParseIntAcceptsUnderscore | molgen_gui.py:54 | a single underscore between digits is accepted: `int("1_000") == 1000` |
| PyText.ParseIntRejects | molgen_gui.py:54 | `int()` raises on `""` |
| PyText.ParseIntRejectsLetter | molgen_gui.py:54 | `int()` raises on `"x"` |
| PyText.ParseIntRejectsPoint | molgen_gui.py:54 | `int()` raises on `"1.5"` |
| PyText.ParseIntRejectsLeadingUnderscore | molgen_gui.py:54 | `int()` raises on `"_1"` |
| PyText.ParseIntRejectsInnerSpace | molgen_gui.py:54 | `int()` raises on `"- 1"`: no space may follow the sign |
| PyText.ParseIntRejectsDoubleUnderscore | molgen_gui.py:54 | `int()` raises on `"1__0"` |
| GroupField.KeptAppend | molgen_gui.py:54 | the `if ':' in fg` filter distributes over concatenation, so it keeps the input order |
| GroupField.KeptMembers | molgen_gui.py:54 | the filter keeps exactly the tokens containing a colon, and never more tokens than it is given |
| GroupField.ParseTokenMeaning | molgen_gui.py:54 | a kept token's fragment is its text before the first colon, unstripped; its index is `int()` of the text between the first and second colon; where that `int()` raises, the token fails with that text |
| GroupField.ParseTokenOf | molgen_gui.py:54 | a token `fragment:index` followed by nothing or by `:` and any text parses as `(fragment, int(index))`; the tail never matters |
| GroupField.ParseTokensAppend | molgen_gui.py:54 | the comprehension over `a + b` fails with `a`'s error if `a` fails, then with `b`'s, and otherwise yields `a`'s pairs followed by `b`'s |
| GroupField.ParseTokensPairs | molgen_gui.py:54 | a successful parse yields one pair per kept token, in order, each made from that token's fragment and index text |
| GroupField.ParseTokensSucceeds | molgen_gui.py:54 | the parse succeeds if and only if every kept token's index text is an integer literal |
| GroupField.FirstInvalidShift | molgen_gui.py:54 | the first invalid kept token of `tokens[1..]` is the first of `tokens` when `tokens[0]` is skipped or valid |
| GroupField.ParseTokensFirstFailure | molgen_gui.py:54 | a failed parse reports the index text of the first kept token whose `int()` raises; every kept token before it was valid |
| GroupField.ParseFunctionalGroupsLength | molgen_gui.py:53-54 | the parse never yields more pairs than the field has comma-separated tokens |
| GroupField.ParseEmptyField | molgen_gui.py:53-54 | the empty field splits to `[""]`, has no colon, and yields no pairs |
| GroupField.ParseSingleToken | molgen_gui.py:54 | a one-token list yields that token's pair, or nothing when it has no colon |
| GroupField.ParsePairToken | molgen_gui.py:54 | a one-token list `fragment:index` with an integer index yields the one pair `(fragment, int(index))` |
| GroupField.ParseDigitToken | molgen_gui.py:54 | a one-token list `fragment:d` with one digit `d` yields `(fragment, d)` |
| GroupField.ParseTokenO1 | molgen_gui.py:54 | the token list `["O:1"]` yields `[("O",1)]` |
| GroupField.ParseTokenN3 | molgen_gui.py:54 | the token list `["N:3"]` yields `[("N",3)]` |
| GroupField.ParseTokenBad | molgen_gui.py:54 | the token list `["bad"]` yields no pair |
| GroupField.ParseTokenNx | molgen_gui.py:54 | the token list `["N:x"]` fails with the literal `"x"` |
| GroupField.ParseTokenSpaces | molgen_gui.py:54 | the token list `[" O : 2 "]` yields `[(" O ",2)]` |
| GroupField.ParseThreeTokens | molgen_gui.py:54 | three tokens that each parse yield their pairs in the same order |
| GroupField.ParseTwoTokensFail | molgen_gui.py:54 | a failing token after one that parses fails the pair of them with its own error |
| GroupField.ParseMixedTokens | molgen_gui.py:54 | the tokens `["O:1","bad","N:3"]` yield `[("O",1),("N",3)]` |
| GroupField.ParseMixedField | molgen_gui.py:53-54 | `"O:1,bad,N:3"` yields `[("O",1),("N",3)]`: the token without a colon is dropped |
| GroupField.ParseSecondColon | molgen_gui.py:53-54 | `"O:1:9"` yields `[("O",1)]`: text after a second colon is ignored |
| GroupField.ParseSpaces | molgen_gui.py:53-54 | `" O : 2 "` yields `[(" O ",2)]`: spaces stay in the fragment and `int()` ignores them around the index |
| GroupField.ParseBadIndex | molgen_gui.py:53-54 | `"O:1,N:x"` fails with the literal `"x"`, even though a valid pair came first |
| GroupField.ParseEmptyIndex | molgen_gui.py:53-54 | `"O:"` fails with the empty literal |
| Chem.CombineMolsLayout | molgen_gui.py:13 | the combined molecule holds the first molecule's atoms and bonds first and the second's atoms after them |
| Chem.CombineMolsBonds | molgen_gui.py:13 | a bond of the combination is a bond of the first molecule or a renumbered bond of the second; combining bonds nothing across the parts |
| Chem.HasBondAppend | molgen_gui.py:15 | appending a bond adds exactly the pair it joins to the bonded pairs |
| Chem.Molecule.constructor | molgen_gui.py:14 | `Chem.RWMol(combined)` holds a copy of the combined molecule |
| Chem.Molecule.AddBond | molgen_gui.py:15 | `AddBond` succeeds exactly when `CanAddBond` holds; then it appends that one bond and changes no atom, and otherwise it changes nothing |
| Chem.Molecule.GetMol | molgen_gui.py:16 | `GetMol()` is a new object with the same atoms and bonds |
| Chem.MolFromSmiles | molgen_gui.py:10-11 | the parser's verdict: null where the toolkit gives None, else a new object holding the parsed molecule |
| Chem.Combine | molgen_gui.py:13 | `CombineMols` returns a new object holding the disjoint union and leaves both arguments alone |
| Chem.SanitizeMol | molgen_gui.py:24 | sanitizing rewrites the molecule in place to the toolkit's sanitized form, and reports a raise as failure |
| Builder.AddGroupLayout | molgen_gui.py:13-16 | a successful addition keeps the molecule's atoms and bonds, appends the fragment's atoms, and adds exactly one SINGLE bond from `atom_idx` to atom `mol.GetNumAtoms()`, which is the fragment's first atom |
| Builder.AddGroupBonds | molgen_gui.py:13-16 | after an addition the bonded pairs are the molecule's, the fragment's renumbered, and the one new pair |
| Builder.AddGroupAccepted | molgen_gui.py:13-19 | for a parsed fragment, the addition succeeds if and only if the fragment has atoms and `atom_idx` is a molecule atom, or a later fragment atom not yet bonded to the first |
| Builder.AddGroupWellFormed | molgen_gui.py:13-16 | adding a well-formed fragment to a well-formed molecule gives a well-formed molecule |
| Builder.AttachToMolecule | molgen_gui.py:13-15 | an index into the molecule and a non-empty fragment always succeed, and the only bond between molecule and fragment joins atom `atom_idx` to the fragment's first atom |
| Builder.AttachAtCountRefused | molgen_gui.py:15-19 | an index equal to the molecule's atom count asks for a bond from the fragment's first atom to itself, and the addition fails |
| Builder.AttachInsideFragment | molgen_gui.py:15 | an index past the molecule's atom count (`atom_idx > mol.GetNumAtoms()`) can be accepted; the new bond then joins two fragment atoms and nothing joins the fragment to the molecule |
| Builder.AddGroupInvalidFragment | molgen_gui.py:10-12 | a fragment that does not parse fails the addition with "invalid fragment", before any combine or bond |
| Builder.BuildInvalidBase | molgen_gui.py:31-34 | a base that does not parse fails the build with "invalid base", whatever the edit list is |
| Builder.BuildNoGroups | molgen_gui.py:31-42 | with an empty edit list the build returns the parsed base unchanged |
| Builder.FailurePersists | molgen_gui.py:36-40 | once an edit fails, no later edit changes the outcome |
| Builder.FailureIsFirst | molgen_gui.py:36-40 | the error of a failed fold names the first edit that failed, and every edit before it succeeded |
| Builder.BuildFailsAt | molgen_gui.py:30-40 | the build fails at edit `pos` with cause `c` if and only if the base parses, every earlier edit succeeds, and edit `pos` fails with `c` |
| Builder.ApplySucceeds | molgen_gui.py:36-42 | when all edits succeed, each one succeeded on the molecule the previous ones left |
| Builder.BuildSucceeds | molgen_gui.py:30-42 | a successful build applied every edit in order to the parsed base; no partially edited molecule is returned |
| Builder.BuildStopsAtFailure | molgen_gui.py:36-40 | if edit `pos` fails after successful earlier edits, the whole build fails with that edit's error |
| Builder.AddFunctionalGroup | molgen_gui.py:8-19 | the procedure's result is `AddGroup`'s: a new molecule object on success, the same error on failure; its argument is not changed |
| Builder.IsValidMolecule | molgen_gui.py:22-27 | true exactly when sanitization succeeds, and then the molecule has been sanitized in place |
| Builder.GenerateMolecule | molgen_gui.py:30-42 | the loop's result is `Build`'s; `attempted` is the number of edits tried: none for a bad base, all for a success, and up to and including the failing edit otherwise |
| Builder.FieldErrorFirst | molgen_gui.py:53-56 | a bad index in the field fails before the base is looked at: the outcome depends on neither the base nor the toolkit |
| Builder.EmptyFieldKeepsBase | molgen_gui.py:53-56 | an empty field with a valid base gives the parsed base |
| Builder.GenerateFromForm | molgen_gui.py:52-56 | parsing the field and then running `GenerateMolecule` gives `FormResult` |

## Left out

- The tkinter window, its entries, button and labels, and `mainloop` (lines 75-116): user-interface plumbing.
- The `messagebox.showerror` calls: each becomes a returned `Failure`; the message text is not modelled.
- `display_molecule` and image rendering (lines 45-49): foreign libraries.
- The descriptor calls, `MolToSmiles` and the result text (lines 61-72): floating-point chemistry inside RDKit, and display.
- The desired LogP, Sigma, Pi, HBA and HBD entries (lines 87-105): no logic reads them.
- RDKit's SMILES parsing and sanitization: opaque functions of a `Toolkit`. Nothing is assumed about them. In particular, the model does not assume that they return well-formed molecules; the lemmas that need that state it as a requirement.
- Chem.SanitizeMol: when RDKit raises partway, it may leave its argument partly changed. The model leaves the argument as it was. No caller uses a molecule whose sanitization failed.
- Chem.Molecule.AddBond: RDKit returns the new bond count, which the source ignores. A negative index raises a conversion error before RDKit sees it; both cases are covered by the range test in `CanAddBond`.
- PyText.ParseInt: only ASCII text is modelled. Python also accepts Unicode decimal digits and strips non-ASCII Unicode whitespace; the model rejects both.
- PyText.ParseInt: the limit on the length of integer literals (4300 digits by default since Python 3.11, past which `int()` raises) is not modelled.
- Builder.GenerateMolecule: the error value also gives the failing edit's position in the list, which the source's message does not show. `attempted` is a ghost count, not part of the source.
- An out-of-range `atom_idx` is rejected by `AddBond` itself, inside the `try` of `add_functional_group` (lines 9-19), not by the later sanitization; the model returns `BondRejected`.
- The code does not check that `atom_idx` names an atom of the pre-merge molecule. `Builder.AttachAtCountRefused` and `Builder.AttachInsideFragment` state what happens for an index at or past the atom count.
- The canonical-SMILES round trip of a built molecule: it depends on `MolToSmiles` and the parser, which are inside RDKit.
