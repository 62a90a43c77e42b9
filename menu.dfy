/**
 * The live menu a selectable menu owner drives (`menu()`), modelled from its
 * documented contract: a path holds one criterion per level; every level
 * before the last is expanded to show the next one; only the last level's
 * selection state is read, and `push` toggles it only when it differs from
 * the desired state. Traversal is not transactional: levels expanded before a
 * lookup failure stay expanded.
 *
 * Which item a criterion picks among its siblings is not modelled: an item is
 * identified by the criteria path that reaches it.
 */
module Menu {
  import opened Errors

  datatype MenuError =
    | InvalidPath           // IllegalArgumentException: a path of length 0
    | NotFound(level: nat)  // no item matches the criterion of this (1-based) level

  /** An action performed on the live menu. */
  datatype Action<C> = Expanded(item: seq<C>) | Toggled(item: seq<C>)

  /**
   * The observable state of the live menu: the selection state of every item
   * reachable by a criteria path, the items expanded so far and the log of
   * actions performed on it.
   */
  datatype MenuState<C(==)> = MenuState(items: map<seq<C>, bool>, expanded: set<seq<C>>, log: seq<Action<C>>)

  /** The result of an operation together with the menu state it leaves behind. */
  datatype Effect<R, C(==)> = Effect(result: R, state: MenuState<C>)

  function AfterExpand<C(==)>(s: MenuState<C>, item: seq<C>): MenuState<C>
  {
    s.(expanded := s.expanded + {item}, log := s.log + [Expanded(item)])
  }

  function AfterToggle<C(==)>(s: MenuState<C>, item: seq<C>): MenuState<C>
    requires item in s.items
  {
    s.(items := s.items[item := !s.items[item]], log := s.log + [Toggled(item)])
  }

  /** Every level of a non-empty path names an item. */
  predicate Resolves<C(==)>(items: map<seq<C>, bool>, path: seq<C>)
  {
    |path| > 0 && forall k :: 1 <= k <= |path| ==> path[..k] in items
  }

  /** The items of levels `lo` up to, not including, `hi`. */
  function Levels<C(==)>(path: seq<C>, lo: nat, hi: nat): set<seq<C>>
    requires lo <= hi <= |path|
  {
    set k | lo <= k < hi :: path[..k]
  }

  /** The expand actions on levels `lo` up to, not including, `hi`, in level order. */
  function LevelExpands<C(==)>(path: seq<C>, lo: nat, hi: nat): seq<Action<C>>
    requires lo <= hi <= |path|
    decreases hi - lo
  {
    if lo == hi then [] else [Expanded(path[..lo])] + LevelExpands(path, lo + 1, hi)
  }

  /** The number of toggle actions in a log. */
  function ToggleCount<C(==)>(log: seq<Action<C>>): nat
  {
    if log == [] then 0 else (if log[0].Toggled? then 1 else 0) + ToggleCount(log[1..])
  }

  /**
   * Resolution of levels `j` onwards: a level that names no item stops the
   * walk with a lookup failure; each resolved level before the last is
   * expanded; the last level yields the leaf's selection state.
   */
  function Descend<C(==)>(s: MenuState<C>, path: seq<C>, j: nat): (v: Effect<Result<bool, MenuError>, C>)
    requires 1 <= j <= |path|
    ensures v.state.items == s.items
    ensures v.result.Ok? <==> forall k :: j <= k <= |path| ==> path[..k] in s.items
    ensures v.result.Ok? ==> path in s.items && v.result.value == s.items[path]
    ensures v.result.Err? ==>
      v.result.error.NotFound? && j <= v.result.error.level <= |path| &&
      path[..v.result.error.level] !in s.items &&
      forall k :: j <= k < v.result.error.level ==> path[..k] in s.items
    decreases |path| - j
  {
    if path[..j] !in s.items then
      Effect(Err(NotFound(j)), s)
    else if j == |path| then
      assert path[..j] == path;
      Effect(Ok(s.items[path]), s)
    else
      Descend(AfterExpand(s, path[..j]), path, j + 1)
  }

  /** Resolution of a whole path. A path of length 0 names no item: the walk fails at once. */
  function Traverse<C(==)>(s: MenuState<C>, path: seq<C>): (v: Effect<Result<bool, MenuError>, C>)
    ensures v.state.items == s.items
    ensures v.result.Ok? <==> Resolves(s.items, path)
    ensures v.result.Ok? ==> path in s.items && v.result.value == s.items[path]
  {
    if path == [] then Effect(Err(NotFound(0)), s) else Descend(s, path, 1)
  }

  /** The deepest level a walk reached: the last one, or the one that failed. */
  function Reached<C(==)>(path: seq<C>, v: Effect<Result<bool, MenuError>, C>): nat
  {
    if v.result.Ok? then |path| else if v.result.error.NotFound? then v.result.error.level else 0
  }

  /** `push(desired, criteria)`: walk the path; toggle the leaf only if its state differs. */
  function PushSpec<C(==)>(s: MenuState<C>, desired: bool, path: seq<C>): (e: Effect<Outcome<MenuError>, C>)
    ensures e.result.Pass? <==> Resolves(s.items, path)
    ensures e.result.Pass? ==> e.state.items == s.items[path := desired]
    ensures e.result.Fail? ==> e.state.items == s.items
  {
    var v := Traverse(s, path);
    match v.result
    case Err(e) => Effect(Fail(e), v.state)
    case Ok(current) =>
      if current == desired then Effect(Pass, v.state) else Effect(Pass, AfterToggle(v.state, path))
  }

  /** `getState(criteria)`: walk the path and report the leaf's selection state. */
  function GetStateSpec<C(==)>(s: MenuState<C>, path: seq<C>): (e: Effect<Result<bool, MenuError>, C>)
    ensures e.state.items == s.items
    ensures e.result.Ok? <==> Resolves(s.items, path)
    ensures e.result.Ok? ==> path in s.items && e.result.value == s.items[path]
  {
    Traverse(s, path)
  }

  lemma {:induction false} ToggleCountAppend<C>(a: seq<Action<C>>, b: seq<Action<C>>)
    ensures ToggleCount(a + b) == ToggleCount(a) + ToggleCount(b)
  {
    if a == [] {
      assert a + b == b;
    } else {
      assert (a + b)[1..] == a[1..] + b;
      ToggleCountAppend(a[1..], b);
    }
  }

  /** Walking intermediate levels never toggles anything. */
  lemma {:induction false} LevelExpandsToggleNothing<C>(path: seq<C>, lo: nat, hi: nat)
    requires lo <= hi <= |path|
    ensures ToggleCount(LevelExpands(path, lo, hi)) == 0
    decreases hi - lo
  {
    if lo < hi {
      LevelExpandsToggleNothing(path, lo + 1, hi);
      assert LevelExpands(path, lo, hi)[1..] == LevelExpands(path, lo + 1, hi);
    }
  }

  /** The expand actions are exactly one per level, in level order. */
  lemma {:induction false} LevelExpandsAt<C>(path: seq<C>, lo: nat, hi: nat, i: nat)
    requires lo <= hi <= |path|
    requires i < hi - lo
    ensures |LevelExpands(path, lo, hi)| == hi - lo
    ensures LevelExpands(path, lo, hi)[i] == Expanded(path[..lo + i])
    decreases hi - lo
  {
    if i > 0 {
      LevelExpandsAt(path, lo + 1, hi, i - 1);
    } else if lo + 1 < hi {
      LevelExpandsAt(path, lo + 1, hi, 0);
    }
  }

  /** A walk from level `j` expands exactly the levels from `j` up to the one it reached,
      and logs one expand action for each, in order. */
  lemma {:induction false} DescendExpands<C>(s: MenuState<C>, path: seq<C>, j: nat)
    requires 1 <= j <= |path|
    ensures var v := Descend(s, path, j);
      j <= Reached(path, v) <= |path| &&
      v.state.expanded == s.expanded + Levels(path, j, Reached(path, v)) &&
      v.state.log == s.log + LevelExpands(path, j, Reached(path, v))
    decreases |path| - j
  {
    if path[..j] !in s.items {
      assert Levels(path, j, j) == {};
    } else if j == |path| {
      assert Levels(path, j, j) == {};
    } else {
      var s' := AfterExpand(s, path[..j]);
      DescendExpands(s', path, j + 1);
      var m := Reached(path, Descend(s, path, j));
      assert Levels(path, j, m) == {path[..j]} + Levels(path, j + 1, m);
      assert s.log + LevelExpands(path, j, m) == s'.log + LevelExpands(path, j + 1, m);
    }
  }

  /** A path that resolves: `push` leaves the leaf in the desired state, changes no other
      selection state, expands every level before the last, and toggles the leaf once
      exactly when its state differed. */
  lemma PushResolved<C>(s: MenuState<C>, desired: bool, path: seq<C>)
    requires Resolves(s.items, path)
    ensures var e := PushSpec(s, desired, path);
      e.result == Pass &&
      e.state.items == s.items[path := desired] &&
      e.state.expanded == s.expanded + Levels(path, 1, |path|) &&
      e.state.log == s.log + LevelExpands(path, 1, |path|)
                           + (if s.items[path] == desired then [] else [Toggled(path)])
  {
    DescendExpands(s, path, 1);
  }

  /** A path that does not resolve: `push` fails at the first level that names no item,
      leaves every selection state as it was, expands only the levels before that one
      and toggles nothing. */
  lemma PushUnresolved<C>(s: MenuState<C>, desired: bool, path: seq<C>)
    requires !Resolves(s.items, path)
    ensures var e := PushSpec(s, desired, path);
      exists m: nat :: e.result == Fail(NotFound(m)) && m <= |path| &&
        (m > 0 ==> path[..m] !in s.items && forall k :: 1 <= k < m ==> path[..k] in s.items) &&
        (m == 0 <==> path == []) &&
        e.state.items == s.items &&
        ToggleCount(e.state.log) == ToggleCount(s.log) &&
        (m == 0 ==> e.state == s) &&
        (m > 0 ==> e.state.expanded == s.expanded + Levels(path, 1, m) &&
                   e.state.log == s.log + LevelExpands(path, 1, m))
  {
    var e := PushSpec(s, desired, path);
    if path == [] {
      assert e.result == Fail(NotFound(0));
    } else {
      DescendExpands(s, path, 1);
      var m := Reached(path, Descend(s, path, 1));
      ToggleCountAppend(s.log, LevelExpands(path, 1, m));
      LevelExpandsToggleNothing(path, 1, m);
      assert e.result == Fail(NotFound(m));
    }
  }

  /** Two pushes with the same desired state toggle at most once between them, and the
      second leaves every selection state as the first left it. */
  lemma PushTwiceTogglesAtMostOnce<C>(s: MenuState<C>, desired: bool, path: seq<C>)
    ensures var once := PushSpec(s, desired, path);
      var twice := PushSpec(once.state, desired, path);
      twice.state.items == once.state.items &&
      ToggleCount(twice.state.log) <= ToggleCount(s.log) + 1 &&
      ToggleCount(twice.state.log) == ToggleCount(once.state.log)
  {
    var once := PushSpec(s, desired, path);
    if Resolves(s.items, path) {
      PushResolved(s, desired, path);
      var walk := LevelExpands(path, 1, |path|);
      var toggles: seq<Action<C>> := if s.items[path] == desired then [] else [Toggled(path)];
      assert ToggleCount(toggles) <= 1 by {
        if toggles != [] { assert toggles[1..] == []; }
      }
      ToggleCountAppend(s.log + walk, toggles);
      ToggleCountAppend(s.log, walk);
      LevelExpandsToggleNothing(path, 1, |path|);
      assert Resolves(once.state.items, path);
      PushResolved(once.state, desired, path);
      assert PushSpec(once.state, desired, path).state.log == once.state.log + walk + [];
      assert once.state.log + walk + [] == once.state.log + walk;
      ToggleCountAppend(once.state.log, walk);
    } else {
      PushUnresolved(s, desired, path);
      PushUnresolved(once.state, desired, path);
    }
  }

  /** `getState` reports the leaf's selection state when the path resolves, fails otherwise,
      and in either case changes no selection state and toggles nothing. */
  lemma GetStateReadsLeaf<C>(s: MenuState<C>, path: seq<C>)
    ensures var e := GetStateSpec(s, path);
      e.state.items == s.items &&
      ToggleCount(e.state.log) == ToggleCount(s.log) &&
      (e.result.Ok? <==> Resolves(s.items, path)) &&
      (e.result.Ok? ==> e.result.value == s.items[path]) &&
      (Resolves(s.items, path) ==>
        e.state.expanded == s.expanded + Levels(path, 1, |path|) &&
        e.state.log == s.log + LevelExpands(path, 1, |path|)) &&
      (path == [] ==> e == Effect(Err(NotFound(0)), s)) &&
      (path != [] && e.result.Err? ==>
        e.result.error.NotFound? && 1 <= e.result.error.level <= |path| &&
        e.state.expanded == s.expanded + Levels(path, 1, e.result.error.level) &&
        e.state.log == s.log + LevelExpands(path, 1, e.result.error.level))
  {
    if path != [] {
      DescendExpands(s, path, 1);
      var m := Reached(path, Descend(s, path, 1));
      ToggleCountAppend(s.log, LevelExpands(path, 1, m));
      LevelExpandsToggleNothing(path, 1, m);
    }
  }

  /** The three-level path File > Export > CSV with CSV unselected: pushing "selected"
      expands File and then File > Export, and toggles CSV once. */
  lemma ExportCsvExample(s: MenuState<string>)
    requires s.log == [] && s.expanded == {}
    requires ["File"] in s.items && ["File", "Export"] in s.items
    requires ["File", "Export", "CSV"] in s.items && !s.items[["File", "Export", "CSV"]]
    ensures var e := PushSpec(s, true, ["File", "Export", "CSV"]);
      e.result == Pass &&
      e.state.items[["File", "Export", "CSV"]] &&
      e.state.log == [Expanded(["File"]), Expanded(["File", "Export"]), Toggled(["File", "Export", "CSV"])]
  {
    var path := ["File", "Export", "CSV"];
    assert path[..1] == ["File"] && path[..2] == ["File", "Export"] && path[..3] == path;
    PushResolved(s, true, path);
    LevelExpandsAt(path, 1, 3, 0);
    LevelExpandsAt(path, 1, 3, 1);
  }

  /**
   * The live menu. `items` and `expanded` are its state; `log` records the
   * actions performed on it.
   */
  class Menu<C(==)> {
    var items: map<seq<C>, bool>
    var expanded: set<seq<C>>
    ghost var log: seq<Action<C>>

    ghost function State(): MenuState<C>
      reads this
    {
      MenuState(items, expanded, log)
    }

    constructor (items: map<seq<C>, bool>)
      ensures State() == MenuState(items, {}, [])
    {
      this.items := items;
      this.expanded := {};
      this.log := [];
    }

    /** Open an item to show the level underneath. */
    method Expand(item: seq<C>)
      modifies this
      ensures State() == AfterExpand(old(State()), item)
    {
      expanded := expanded + {item};
      log := log + [Expanded(item)];
    }

    /** Select or deselect an item. */
    method Toggle(item: seq<C>)
      requires item in items
      modifies this
      ensures State() == AfterToggle(old(State()), item)
    {
      items := items[item := !items[item]];
      log := log + [Toggled(item)];
    }

    /** Walk the path level by level, expanding every resolved level before the last. */
    method Resolve(path: seq<C>) returns (leaf: Result<bool, MenuError>)
      modifies this
      ensures Effect(leaf, State()) == Traverse(old(State()), path)
    {
      if |path| == 0 {
        return Err(NotFound(0));
      }
      var j := 1;
      while j < |path| && path[..j] in items
        invariant 1 <= j <= |path|
        invariant Descend(State(), path, j) == Descend(old(State()), path, 1)
        decreases |path| - j
      {
        Expand(path[..j]);
        j := j + 1;
      }
      if path[..j] !in items {
        leaf := Err(NotFound(j));
      } else {
        assert path[..j] == path;
        leaf := Ok(items[path]);
      }
    }

    /** `push(desired, criteria)`. */
    method Push(desired: bool, path: seq<C>) returns (r: Outcome<MenuError>)
      modifies this
      ensures Effect(r, State()) == PushSpec(old(State()), desired, path)
    {
      var leaf := Resolve(path);
      match leaf
      case Err(e) =>
        r := Fail(e);
      case Ok(current) =>
        if current != desired {
          Toggle(path);
        }
        r := Pass;
    }

    /** `getState(criteria)`. */
    method GetState(path: seq<C>) returns (r: Result<bool, MenuError>)
      modifies this
      ensures Effect(r, State()) == GetStateSpec(old(State()), path)
    {
      r := Resolve(path);
    }
  }
}
