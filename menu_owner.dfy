/**
 * A menu owner addressed by text (StringMenuSelectableOwner): guards the path
 * length, turns each text into the criterion for its level and forwards to
 * the live menu.
 *
 * How a text becomes a criterion is decided by StringMenuOwner, which is not
 * part of this model: the owner is given that conversion as `createCriteria`.
 */
module MenuOwner {
  import opened Errors
  import opened Menu

  /** `createCriteriaList(texts)`: one criterion per level, level i built from text i. */
  function CriteriaList<C>(texts: seq<string>, createCriteria: string -> C): (path: seq<C>)
    ensures |path| == |texts|
    ensures forall i :: 0 <= i < |texts| ==> path[i] == createCriteria(texts[i])
  {
    if texts == [] then [] else [createCriteria(texts[0])] + CriteriaList(texts[1..], createCriteria)
  }

  /** `push(desired, texts...)`: a path of no texts is refused before the menu is touched. */
  function PushTextsSpec<C(==)>(s: MenuState<C>, desired: bool, texts: seq<string>, createCriteria: string -> C)
    : (e: Effect<Outcome<MenuError>, C>)
    ensures |texts| == 0 ==> e == Effect(Fail(InvalidPath), s)
    ensures e.result.Pass? <==> |texts| > 0 && Resolves(s.items, CriteriaList(texts, createCriteria))
    ensures e.result.Pass? ==> e.state.items == s.items[CriteriaList(texts, createCriteria) := desired]
    ensures e.result.Fail? ==> e.state.items == s.items
  {
    if |texts| == 0 then Effect(Fail(InvalidPath), s)
    else PushSpec(s, desired, CriteriaList(texts, createCriteria))
  }

  /** `getState(texts...)`: a path of no texts is refused before the menu is touched. */
  function GetStateTextsSpec<C(==)>(s: MenuState<C>, texts: seq<string>, createCriteria: string -> C)
    : (e: Effect<Result<bool, MenuError>, C>)
    ensures |texts| == 0 ==> e == Effect(Err(InvalidPath), s)
    ensures e.state.items == s.items
    ensures e.result.Ok? <==> |texts| > 0 && Resolves(s.items, CriteriaList(texts, createCriteria))
    ensures e.result.Ok? ==> CriteriaList(texts, createCriteria) in s.items && e.result.value == s.items[CriteriaList(texts, createCriteria)]
  {
    if |texts| == 0 then Effect(Err(InvalidPath), s)
    else GetStateSpec(s, CriteriaList(texts, createCriteria))
  }

  /** Pushing by texts: a path of no texts fails with InvalidPath and leaves the menu as it
      was; otherwise a path whose every level names an item ends with the leaf in the desired
      state, no other selection state changed and at most one toggle. */
  lemma PushTextsEffect<C>(s: MenuState<C>, desired: bool, texts: seq<string>, createCriteria: string -> C)
    ensures var e := PushTextsSpec(s, desired, texts, createCriteria);
      var path := CriteriaList(texts, createCriteria);
      (texts == [] ==> e == Effect(Fail(InvalidPath), s)) &&
      (Resolves(s.items, path) ==>
        e.result == Pass && e.state.items == s.items[path := desired] &&
        ToggleCount(e.state.log) == ToggleCount(s.log) + (if s.items[path] == desired then 0 else 1))
  {
    var path := CriteriaList(texts, createCriteria);
    if Resolves(s.items, path) {
      PushResolved(s, desired, path);
      var walk := LevelExpands(path, 1, |path|);
      var toggles: seq<Action<C>> := if s.items[path] == desired then [] else [Toggled(path)];
      assert ToggleCount(toggles) == (if s.items[path] == desired then 0 else 1) by {
        if toggles != [] { assert toggles[1..] == []; }
      }
      ToggleCountAppend(s.log + walk, toggles);
      ToggleCountAppend(s.log, walk);
      LevelExpandsToggleNothing(path, 1, |path|);
    }
  }

  /** Reading by texts: a path of no texts fails with InvalidPath and leaves the menu as it
      was; otherwise the leaf's state is reported and no selection state changes. */
  lemma GetStateTextsEffect<C>(s: MenuState<C>, texts: seq<string>, createCriteria: string -> C)
    ensures var e := GetStateTextsSpec(s, texts, createCriteria);
      var path := CriteriaList(texts, createCriteria);
      (texts == [] ==> e == Effect(Err(InvalidPath), s)) &&
      e.state.items == s.items &&
      ToggleCount(e.state.log) == ToggleCount(s.log) &&
      (Resolves(s.items, path) ==> e.result == Ok(s.items[path]))
  {
    GetStateReadsLeaf(s, CriteriaList(texts, createCriteria));
  }

  class StringMenuSelectableOwner<C(==)> {
    /** The live menu `menu()` returns. */
    const menu: Menu<C>
    /** How a text becomes the criterion for one level. */
    const createCriteria: string -> C

    constructor (menu: Menu<C>, createCriteria: string -> C)
      ensures this.menu == menu && this.createCriteria == createCriteria
    {
      this.menu := menu;
      this.createCriteria := createCriteria;
    }

    /** `push(desired, texts...)`. */
    method PushTexts(desired: bool, texts: seq<string>) returns (r: Outcome<MenuError>)
      modifies menu
      ensures Effect(r, menu.State()) == PushTextsSpec(old(menu.State()), desired, texts, createCriteria)
      ensures |texts| == 0 ==> r == Fail(InvalidPath) && unchanged(menu)
    {
      if |texts| == 0 {
        return Fail(InvalidPath);
      }
      r := Push(desired, CriteriaList(texts, createCriteria));
    }

    /** `push(desired, criteria...)`: forwarded unchanged, with no length check here. */
    method Push(desired: bool, criteria: seq<C>) returns (r: Outcome<MenuError>)
      modifies menu
      ensures Effect(r, menu.State()) == PushSpec(old(menu.State()), desired, criteria)
    {
      r := menu.Push(desired, criteria);
    }

    /** `getState(texts...)`. */
    method GetStateTexts(texts: seq<string>) returns (r: Result<bool, MenuError>)
      modifies menu
      ensures Effect(r, menu.State()) == GetStateTextsSpec(old(menu.State()), texts, createCriteria)
      ensures |texts| == 0 ==> r == Err(InvalidPath) && unchanged(menu)
      ensures menu.items == old(menu.items)
    {
      if |texts| == 0 {
        return Err(InvalidPath);
      }
      r := GetState(CriteriaList(texts, createCriteria));
    }

    /** `getState(criteria...)`: forwarded unchanged, with no length check here. */
    method GetState(criteria: seq<C>) returns (r: Result<bool, MenuError>)
      modifies menu
      ensures Effect(r, menu.State()) == GetStateSpec(old(menu.State()), criteria)
      ensures menu.items == old(menu.items)
    {
      r := menu.GetState(criteria);
    }
  }
}
