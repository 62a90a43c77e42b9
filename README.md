# Jemmy find-and-act core in Dafny

A model of the "find-and-act" layer of the Jemmy GUI test toolkit: the
criterion that identifies a control by its text, the selectable menu owner
that drives a multi-level menu path to a desired selection state, and the
tolerance rule that tells a caret which way to move towards a target.

- `errors.dfy` (module `Errors`): `Outcome` and `Result`, standing for the
  Java exceptions.
- `string_lookup.dfy` (module `StringLookup`): `ByStringLookup` as an
  immutable datatype of text and comparison policy. The policy's own
  comparison (`compare`) and the subclass's `getText` are parameters and are
  never interpreted.
- `caret.dfy` (module `Caret`): the class `AbstractCaretOwner` with its
  mutable tolerance and the invariant that the tolerance is never negative.
  The datatype `ToPosition` is the target descriptor. Its `To()` re-reads the
  owner's position on every call and answers 0, 1 or -1. Java `double`s are
  `real`s.
- `menu.dfy` (module `Menu`): the live menu that `menu()` returns, modelled
  from the contract its callers document. Its state is a map from criteria
  paths to selection flags, the set of expanded items and a ghost log of
  expand and toggle actions. The pure functions `Descend`, `Traverse`,
  `PushSpec` and `GetStateSpec` specify the level-by-level walk. The class
  `Menu` implements that walk with a loop and is proved against them.
- `menu_owner.dfy` (module `MenuOwner`): `StringMenuSelectableOwner`. It
  guards against an empty text path, builds one criterion per text and
  forwards to the menu.

Two details of the code the model keeps as written:

- `ToPosition`'s constructors do not check their tolerance
  (AbstractCaretOwner.java:59-63); only `allowError` refuses a negative one.
  With a negative tolerance `to()` never answers 0, and at the target itself
  it answers -1.
- `check` hands whatever `getText` returns straight to the policy
  (ByStringLookup.java:71); an empty or missing text gets no special
  treatment.

## Model

| member | source | states |
|---|---|---|
| `StringLookup.WithDefaultPolicy` | core/JemmyCore/src/org/jemmy/lookup/ByStringLookup.java:40-46 | the one-argument constructor keeps the text and installs SUBSTRING |
| `StringLookup.Check` | core/JemmyCore/src/org/jemmy/lookup/ByStringLookup.java:70-72 | the verdict is exactly the policy's verdict on (configured text, candidate text); the wrapper never alters it |
| `StringLookup.ToString` | core/JemmyCore/src/org/jemmy/lookup/ByStringLookup.java:75-77 | the diagnostic text is "Text = " followed by the configured text |
| `StringLookup.SameTextSameVerdict` | core/JemmyCore/src/org/jemmy/lookup/ByStringLookup.java:70-72 | two candidates with the same text get the same verdict |
| `StringLookup.DefaultIsSubstring` | core/JemmyCore/src/org/jemmy/lookup/ByStringLookup.java:44-56 | a default-policy criterion gives the same verdict as one built with SUBSTRING, for every policy semantics and candidate |
| `StringLookup.ToStringDeterminesText` | core/JemmyCore/src/org/jemmy/lookup/ByStringLookup.java:75-77 | criteria with the same diagnostic text look for the same text |
| `Caret.Decide` | core/JemmyCore/src/org/jemmy/input/AbstractCaretOwner.java:69-72 | the result is -1, 0 or 1. It is 0 exactly when the distance is within the tolerance. Outside the tolerance it is 1 exactly when the target is above the position, and -1 otherwise |
| `Caret.AbstractCaretOwner.constructor` | core/JemmyCore/src/org/jemmy/input/AbstractCaretOwner.java:36 | a new owner has tolerance 0 and satisfies the invariant |
| `Caret.AbstractCaretOwner.AllowedError` | core/JemmyCore/src/org/jemmy/input/AbstractCaretOwner.java:38-40 | the tolerance read back is never negative |
| `Caret.AbstractCaretOwner.AllowError` | core/JemmyCore/src/org/jemmy/input/AbstractCaretOwner.java:42-47 | a negative tolerance fails and leaves the old one; a non-negative one becomes exactly the new tolerance; the invariant is kept |
| `Caret.AbstractCaretOwner.To` | core/JemmyCore/src/org/jemmy/input/AbstractCaretOwner.java:49-51 | the descriptor handed to the caret targets the given position with the current tolerance, and its caret is this owner |
| `Caret.ToPosition.Diff` | core/JemmyCore/src/org/jemmy/input/AbstractCaretOwner.java:79-81 | the current position plus the difference is the target |
| `Caret.ToPosition.To` | core/JemmyCore/src/org/jemmy/input/AbstractCaretOwner.java:69-72 | the answer is in {-1, 0, 1}. It is 0 exactly when the difference is within the tolerance. Outside the tolerance it is 1 for a positive difference and -1 otherwise. The position is read from the owner at call time |
| `Caret.Exact` | core/JemmyCore/src/org/jemmy/input/AbstractCaretOwner.java:65-67 | the two-argument constructor is the three-argument one with tolerance 0 |
| `Caret.DirectionIsSign` | core/JemmyCore/src/org/jemmy/input/AbstractCaretOwner.java:69-72 | with a non-negative tolerance, -1 means the target lies strictly below the position, and any non-zero answer means the two differ |
| `Caret.ExactOnlyAtTarget` | core/JemmyCore/src/org/jemmy/input/AbstractCaretOwner.java:65-72 | with tolerance 0, "at target" is answered only on the exact target |
| `Caret.NegativeToleranceNeverAtTarget` | core/JemmyCore/src/org/jemmy/input/AbstractCaretOwner.java:59-72 | an unvalidated negative tolerance is never met, and on the target itself the answer is -1 |
| `Caret.WorkedExamples` | core/JemmyCore/src/org/jemmy/input/AbstractCaretOwner.java:69-81 | target 10 with tolerance 0.5 gives 0 at 10.3, 1 at 9 and -1 at 11 |
| `Menu.Descend` | core/JemmyCore/src/org/jemmy/input/StringMenuSelectableOwner.java:43-51 | the walk from a level changes no selection state. It succeeds exactly when every remaining level names an item, and then it yields the leaf's state. Otherwise it fails at the first level that names no item |
| `Menu.Traverse` | core/JemmyCore/src/org/jemmy/input/StringMenuSelectableOwner.java:43-51 | a whole-path walk succeeds exactly when the path is non-empty and every level resolves; it yields the leaf's state and changes no selection state |
| `Menu.DescendExpands` | core/JemmyCore/src/org/jemmy/input/StringMenuSelectableOwner.java:43-45 | a walk expands exactly the levels before the one it reached, one expand action each, in level order |
| `Menu.LevelExpandsAt` | core/JemmyCore/src/org/jemmy/input/StringMenuSelectableOwner.java:43-45 | the i-th expand action of a walk is on the item of level lo + i |
| `Menu.PushResolved` | core/JemmyCore/src/org/jemmy/input/StringMenuSelectableOwner.java:43-51 | on a resolving path, push leaves the leaf in the desired state and changes no other selection state. It expands every level before the last and toggles the leaf once exactly when its state differed |
| `Menu.PushUnresolved` | core/JemmyCore/src/org/jemmy/input/StringMenuSelectableOwner.java:77-79 | on a path that does not resolve, push fails at the first unresolved level. It changes no selection state and toggles nothing. It expands exactly the earlier levels, one logged expand action each; an empty path leaves the whole state unchanged |
| `Menu.PushTwiceTogglesAtMostOnce` | core/JemmyCore/src/org/jemmy/input/StringMenuSelectableOwner.java:47-49 | two pushes with the same desired state toggle at most once, and the second push changes no selection state and toggles nothing |
| `Menu.GetStateReadsLeaf` | core/JemmyCore/src/org/jemmy/input/StringMenuSelectableOwner.java:81-90 | getState reports the leaf's state exactly when the path resolves. It never changes a selection state or toggles. It expands exactly the levels before the one it reached, one logged expand action each; an empty path fails at level 0 and leaves the whole state unchanged |
| `Menu.ExportCsvExample` | core/JemmyCore/src/org/jemmy/input/StringMenuSelectableOwner.java:43-51 | pushing File > Export > CSV as selected, with CSV unselected, expands File, then File > Export, then toggles CSV once |
| `Menu.PushSpec` | core/JemmyCore/src/org/jemmy/input/StringMenuSelectableOwner.java:44-51 | push succeeds exactly when the path resolves, and then the leaf ends in the desired state with every other selection state unchanged; on failure no selection state changes |
| `Menu.GetStateSpec` | core/JemmyCore/src/org/jemmy/input/StringMenuSelectableOwner.java:81-90 | getState changes no selection state, succeeds exactly when the path resolves, and then reports the leaf's state |
| `Menu.Menu.Resolve` | core/JemmyCore/src/org/jemmy/input/StringMenuSelectableOwner.java:43-45 | the level-by-level loop does exactly what Traverse specifies to the live menu |
| `Menu.Menu.Push` | core/JemmyCore/src/org/jemmy/input/StringMenuSelectableOwner.java:43-51 | the live menu's push result and new state are those of PushSpec |
| `Menu.Menu.GetState` | core/JemmyCore/src/org/jemmy/input/StringMenuSelectableOwner.java:81-90 | the live menu's getState result and new state are those of GetStateSpec |
| `MenuOwner.CriteriaList` | core/JemmyCore/src/org/jemmy/input/StringMenuSelectableOwner.java:61 | a text path becomes a criteria path with one criterion per level, where level i is built from text i |
| `MenuOwner.PushTextsSpec` | core/JemmyCore/src/org/jemmy/input/StringMenuSelectableOwner.java:57-62 | no texts: InvalidPath with the menu untouched; otherwise push succeeds exactly when the criteria path resolves, and then only the leaf's state changes, to the desired one |
| `MenuOwner.GetStateTextsSpec` | core/JemmyCore/src/org/jemmy/input/StringMenuSelectableOwner.java:91-96 | no texts: InvalidPath with the menu untouched; otherwise no selection state changes, and the leaf's state is reported exactly when the criteria path resolves |
| `MenuOwner.PushTextsEffect` | core/JemmyCore/src/org/jemmy/input/StringMenuSelectableOwner.java:57-62 | no texts: InvalidPath and the menu is untouched. Otherwise, on a resolving path the leaf ends in the desired state, no other selection changes, and there is one toggle exactly when the state differed |
| `MenuOwner.GetStateTextsEffect` | core/JemmyCore/src/org/jemmy/input/StringMenuSelectableOwner.java:91-96 | no texts: InvalidPath and the menu is untouched. Otherwise the leaf's state is reported and no selection state changes |
| `MenuOwner.StringMenuSelectableOwner.PushTexts` | core/JemmyCore/src/org/jemmy/input/StringMenuSelectableOwner.java:57-62 | an empty text path fails before any menu action; otherwise the criteria path is pushed with the same desired state |
| `MenuOwner.StringMenuSelectableOwner.Push` | core/JemmyCore/src/org/jemmy/input/StringMenuSelectableOwner.java:77-79 | the criteria path is forwarded to the menu unchanged, with no length check |
| `MenuOwner.StringMenuSelectableOwner.GetStateTexts` | core/JemmyCore/src/org/jemmy/input/StringMenuSelectableOwner.java:91-96 | an empty text path fails before any menu action; otherwise the criteria path's leaf state is read; no selection state changes |
| `MenuOwner.StringMenuSelectableOwner.GetState` | core/JemmyCore/src/org/jemmy/input/StringMenuSelectableOwner.java:108-110 | the criteria path is forwarded to the menu unchanged; no selection state changes |

## Left out

- core/JemmyCore/src/org/jemmy/env/TestOut.java is not part of this model. It only wraps Java input and output streams.
- core/JemmyCore/src/org/jemmy/dock/PreferredParent.java is not part of this model. It declares an annotation and has no logic.
- The caret's driving loop behind `caret().to(...)` is not modelled. `AbstractCaretOwner.To` returns the descriptor it would hand over. The caret's position is a field that only the outside world moves.
- `ToPosition.toString()` is not modelled, because its number formatting depends on `double`. Floating-point rounding, NaN and infinities are not modelled either, since doubles are `real`s.
- A `ToPosition` descriptor can point only at an `AbstractCaretOwner`, where the Java field takes any `CaretOwner`. `to()` depends on its caret only through `position()`.
- `getCaret()` and `position()` of `ToPosition` are the datatype's fields `caret` and `value`.
- The semantics of `StringComparePolicy` (SUBSTRING, EXACT, ...) are not part of this model. A policy is a name, and its comparison is the parameter `compare`.
- `StringMenuOwner` is not part of this model, and neither are its `createCriteriaList` and the concrete `menu()`. Each text becomes a criterion through the owner's `createCriteria` function. The menu's behaviour follows its documented contract.
- Which sibling a criterion picks is not modelled. An item is identified by the criteria path that reaches it, and a level fails to resolve when that path names no item.
- The menu's behaviour on an empty criteria path is undocumented. The model treats it as a lookup failure at level 0 with no effect.
- The lookup failure does not carry the failing criterion's description. It carries only the level.
- Toolkit event dispatch, widget wraps and threading are not modelled.
