/**
 The start-up pass that moves the tasks of unfinished past days onto today
 (`process_overdue_tasks`, milestone.py:84-95), modelled as Python runs it:
 the keys are visited in dict order from a snapshot, `int()` decides which keys
 are days, a day whose cell index is negative reads the grid from the end as
 Python list indexing does, and an index past the front of the list raises an
 `IndexError` that nothing catches.

 The loop is written once over an arbitrary per-key decision (`Decide`); the
 decision the source makes is `Classify`.
 */
module Rollover {
  import opened Wrappers
  import opened PyText
  import opened Stages
  import opened Grid
  import opened TaskStore

  /** What the pass reads besides the store: the cell colours and today's date. */
  datatype Board = Board(grid: seq<string>, today: DayOfYear)

  /** What the pass does with one key. */
  datatype Verdict = Keep | Move | Fail

  /** The exceptions the pass can raise; neither is caught by `except ValueError`. */
  datatype PyError = IndexError | KeyError

  /** The pass either finishes with a new store or stops the program with an exception. */
  datatype Outcome = Rolled(store: Store) | Raised(error: PyError)

  /** A per-key decision. */
  type Decide = string -> Verdict

  /** `buttons[i]`, with Python's reading of negative indices from the end. */
  function PyIndex(grid: seq<string>, i: int): (r: Option<string>)
    ensures r.Some? <==> -|grid| <= i < |grid|
    ensures r.Some? ==> r.value in grid
    ensures r.Some? ==> r.value == grid[if i >= 0 then i else |grid| + i]
  {
    if 0 <= i < |grid| then Some(grid[i])
    else if -|grid| <= i < 0 then Some(grid[|grid| + i])
    else None
  }

  /**
   The decision lines 88-91 make for one key: not an integer, or not before
   today, or a cell index at or past the end of the grid, or a cell at the last
   stage keeps the key; an index before the front of the grid fails; otherwise
   the key's tasks move.
   */
  function Classify(key: string, b: Board): Verdict {
    match ParseInt(key)
    case None => Keep
    case Some(day) =>
      if day < b.today then
        var idx := day - 1;
        if idx < |b.grid| then
          match PyIndex(b.grid, idx)
          case None => Fail
          case Some(colour) => if colour != Final then Move else Keep
        else Keep
      else Keep
  }

  /**
   The loop over the remaining snapshot keys: a moved key's tasks are appended
   to the list under `todayKey` (created if missing) and the key is deleted.
   */
  function RollKeys(s: Store, keys: seq<string>, decide: Decide, todayKey: string): Outcome
    decreases |keys|
  {
    if keys == [] then Rolled(s)
    else
      match decide(keys[0])
      case Keep => RollKeys(s, keys[1..], decide, todayKey)
      case Fail => Raised(IndexError)
      case Move =>
        match Lookup(s, keys[0])
        case None => Raised(KeyError)
        case Some(moved) => RollKeys(Delete(Extend(s, todayKey, moved), keys[0]), keys[1..], decide, todayKey)
  }

  /** The source's decision for the board `b`. */
  function Decision(b: Board): Decide {
    (k: string) => Classify(k, b)
  }

  /** `process_overdue_tasks`: one pass over a snapshot of the keys. */
  function ProcessOverdue(s: Store, b: Board): Outcome {
    RollKeys(s, Keys(s), Decision(b), TodayKey(b.today))
  }

  // ---------------------------------------------------------------------------
  // An independent description of the pass's result.

  /** The verdict of every item, in key order. */
  function Verdicts(s: Store, decide: Decide): (v: seq<Verdict>)
    ensures |v| == |s|
    ensures forall i :: 0 <= i < |s| ==> v[i] == decide(s[i].key)
  {
    seq(|s|, i requires 0 <= i < |s| => decide(s[i].key))
  }

  /** The items that stay, in their order. */
  function Kept(s: Store, decide: Decide): Store
    decreases |s|
  {
    if s == [] then []
    else if decide(s[0].key) == Move then Kept(s[1..], decide)
    else [s[0]] + Kept(s[1..], decide)
  }

  /** The tasks that move, item by item in key order. */
  function Moved(s: Store, decide: Decide): seq<string>
    decreases |s|
  {
    if s == [] then []
    else if decide(s[0].key) == Move then s[0].tasks + Moved(s[1..], decide)
    else Moved(s[1..], decide)
  }

  /**
   The result a pass should have: an `IndexError` if any key fails;
   otherwise, if any key moves, the kept items with the moved tasks appended to
   the list under `todayKey`; otherwise the store as it was.
   */
  function Expected(s: Store, decide: Decide, todayKey: string): Outcome {
    if Fail in Verdicts(s, decide) then Raised(IndexError)
    else if Move in Verdicts(s, decide) then Rolled(Extend(Kept(s, decide), todayKey, Moved(s, decide)))
    else Rolled(s)
  }

  // ---------------------------------------------------------------------------
  // Facts about the pieces.

  /** `int(str(today))` is today, which is not before today: today's key always stays. */
  lemma TodayKeyKept(b: Board)
    ensures Classify(TodayKey(b.today), b) == Keep
  {
    ParseNatToString(b.today);
  }

  lemma VerdictsConcat(a: Store, c: Store, decide: Decide)
    ensures Verdicts(a + c, decide) == Verdicts(a, decide) + Verdicts(c, decide)
  {
    assert forall i :: 0 <= i < |a + c| ==> (a + c)[i] == if i < |a| then a[i] else c[i - |a|];
  }

  lemma {:induction false} KeptAppend(a: Store, c: Store, decide: Decide)
    ensures Kept(a + c, decide) == Kept(a, decide) + Kept(c, decide)
    decreases |a|
  {
    if a == [] {
      assert a + c == c;
    } else {
      assert (a + c)[0] == a[0] && (a + c)[1..] == a[1..] + c;
      KeptAppend(a[1..], c, decide);
    }
  }

  lemma {:induction false} MovedAppend(a: Store, c: Store, decide: Decide)
    ensures Moved(a + c, decide) == Moved(a, decide) + Moved(c, decide)
    decreases |a|
  {
    if a == [] {
      assert a + c == c;
    } else {
      assert (a + c)[0] == a[0] && (a + c)[1..] == a[1..] + c;
      MovedAppend(a[1..], c, decide);
    }
  }

  lemma KeptConcat(a: Store, c: Store, decide: Decide)
    ensures Kept(a + c, decide) == Kept(a, decide) + Kept(c, decide)
    ensures Moved(a + c, decide) == Moved(a, decide) + Moved(c, decide)
  {
    KeptAppend(a, c, decide);
    MovedAppend(a, c, decide);
  }

  /** With no moving key, nothing is dropped and nothing moves. */
  lemma {:induction false} KeptNoMove(s: Store, decide: Decide)
    requires Move !in Verdicts(s, decide)
    ensures Kept(s, decide) == s && Moved(s, decide) == []
    decreases |s|
  {
    if s != [] {
      assert Verdicts(s[1..], decide) == Verdicts(s, decide)[1..];
      KeptNoMove(s[1..], decide);
    }
  }

  /** Every kept item is an item of the store that does not move. */
  lemma {:induction false} KeptItems(s: Store, decide: Decide)
    ensures forall e :: e in Kept(s, decide) ==> e in s && decide(e.key) != Move
    decreases |s|
  {
    if s != [] {
      KeptItems(s[1..], decide);
    }
  }

  // ---------------------------------------------------------------------------
  // The pass computes the expected result.

  /** The store after the items before index `j` have been handled. */
  function Partial(s0: Store, j: nat, decide: Decide, todayKey: string): Store
    requires j <= |s0|
  {
    var pre := s0[..j];
    var f := Kept(pre, decide) + s0[j..];
    if Move in Verdicts(pre, decide) then Extend(f, todayKey, Moved(pre, decide)) else f
  }

  /** In a dict, the key of item `j` is not the key of any other item. */
  lemma KeyUnique(s0: Store, j: nat)
    requires Distinct(s0) && j < |s0|
    ensures s0[j].key !in Keys(s0[..j]) && s0[j].key !in Keys(s0[j + 1..])
  {
  }

  /** Taking a moving item into the handled prefix adds its tasks to the moved ones and keeps the kept ones. */
  lemma MovePrefix(s0: Store, j: nat, decide: Decide)
    requires j < |s0| && decide(s0[j].key) == Move
    ensures Kept(s0[..j + 1], decide) == Kept(s0[..j], decide)
    ensures Moved(s0[..j + 1], decide) == Moved(s0[..j], decide) + s0[j].tasks
    ensures Move in Verdicts(s0[..j + 1], decide)
  {
    var pre := s0[..j];
    var e := s0[j];
    assert s0[..j + 1] == pre + [e];
    KeptConcat(pre, [e], decide);
    VerdictsConcat(pre, [e], decide);
    assert [e][1..] == [];
    assert Kept([e], decide) == [] && Moved([e], decide) == e.tasks + [];
    assert Verdicts([e], decide)[0] == Move;
  }

  /** In a dict, the key of item `j` is neither among the kept items before it nor among the items after it. */
  lemma KeyAlone(s0: Store, j: nat, decide: Decide)
    requires Distinct(s0) && j < |s0|
    ensures s0[j].key !in Keys(Kept(s0[..j], decide)) && s0[j].key !in Keys(s0[j + 1..])
  {
    var k := s0[j].key;
    var pre := s0[..j];
    var kept := Kept(pre, decide);
    KeyUnique(s0, j);
    KeptItems(pre, decide);
    KeyOfItem(kept, k);
    KeyOfItem(pre, k);
  }

  /** Before item `j` is handled, looking up its key finds its own tasks. */
  lemma MoveLookup(s0: Store, j: nat, decide: Decide, todayKey: string)
    requires Distinct(s0) && j < |s0| && decide(todayKey) == Keep
    ensures Lookup(Kept(s0[..j], decide) + s0[j..], s0[j].key) == Some(s0[j].tasks)
  {
    var e := s0[j];
    KeyAlone(s0, j, decide);
    assert s0[j..] == [e] + s0[j + 1..];
    LookupConcat(Kept(s0[..j], decide), s0[j..], e.key);
  }

  /** `Partial` after a moving item `j`: the kept items and the rest, with every moved task so far under `todayKey`. */
  lemma PartialAfterMove(s0: Store, j: nat, decide: Decide, todayKey: string)
    requires j < |s0| && decide(s0[j].key) == Move
    ensures Partial(s0, j + 1, decide, todayKey)
            == Extend(Kept(s0[..j], decide) + s0[j + 1..], todayKey, Moved(s0[..j], decide) + s0[j].tasks)
  {
    MovePrefix(s0, j, decide);
  }

  /** Extending, then deleting a different key that a dict holds once, in either order. */
  lemma ExtendThenDelete(kept: Store, e: Entry, rest: Store, todayKey: string, y: seq<string>)
    requires e.key != todayKey && e.key !in Keys(kept) && e.key !in Keys(rest)
    ensures Delete(Extend(kept + [e] + rest, todayKey, y), e.key) == Extend(kept + rest, todayKey, y)
  {
    DeleteExtend(kept + [e] + rest, todayKey, e.key, y);
    DeleteMiddle(kept, e, rest);
  }

  /** Before a moving item `j` is handled, the store still holds its tasks under its key. */
  lemma MovePartialLookup(s0: Store, j: nat, decide: Decide, todayKey: string)
    requires Distinct(s0) && j < |s0|
    requires decide(s0[j].key) == Move && decide(todayKey) == Keep
    ensures Lookup(Partial(s0, j, decide, todayKey), s0[j].key) == Some(s0[j].tasks)
  {
    var pre := s0[..j];
    var f := Kept(pre, decide) + s0[j..];
    MoveLookup(s0, j, decide, todayKey);
    if Move in Verdicts(pre, decide) {
      ExtendLookupOther(f, todayKey, Moved(pre, decide), s0[j].key);
    }
  }

  /** Appending a moving item's tasks to today's list and deleting its key gives `Partial(j + 1)`. */
  lemma MovePartialStore(s0: Store, j: nat, decide: Decide, todayKey: string)
    requires Distinct(s0) && j < |s0|
    requires decide(s0[j].key) == Move && decide(todayKey) == Keep
    ensures Delete(Extend(Partial(s0, j, decide, todayKey), todayKey, s0[j].tasks), s0[j].key)
            == Partial(s0, j + 1, decide, todayKey)
  {
    var e := s0[j];
    var pre := s0[..j];
    var rest := s0[j + 1..];
    var kept := Kept(pre, decide);
    var x := Moved(pre, decide);
    KeyAlone(s0, j, decide);
    PartialAfterMove(s0, j, decide, todayKey);
    assert s0[j..] == [e] + rest;
    var f := kept + s0[j..];
    assert f == kept + [e] + rest;
    if Move in Verdicts(pre, decide) {
      ExtendTwice(f, todayKey, x, e.tasks);
      ExtendThenDelete(kept, e, rest, todayKey, x + e.tasks);
    } else {
      KeptNoMove(pre, decide);
      assert x + e.tasks == e.tasks;
      ExtendThenDelete(kept, e, rest, todayKey, e.tasks);
    }
  }

  /** Handling item `j` when it moves turns `Partial(j)` into `Partial(j + 1)`. */
  lemma MoveStep(s0: Store, j: nat, decide: Decide, todayKey: string)
    requires Distinct(s0) && j < |s0|
    requires decide(s0[j].key) == Move && decide(todayKey) == Keep
    ensures Lookup(Partial(s0, j, decide, todayKey), s0[j].key) == Some(s0[j].tasks)
    ensures Delete(Extend(Partial(s0, j, decide, todayKey), todayKey, s0[j].tasks), s0[j].key)
            == Partial(s0, j + 1, decide, todayKey)
  {
    MovePartialLookup(s0, j, decide, todayKey);
    MovePartialStore(s0, j, decide, todayKey);
  }

  /** Handling item `j` when it stays leaves `Partial` as it is. */
  lemma KeepStep(s0: Store, j: nat, decide: Decide, todayKey: string)
    requires j < |s0|
    requires decide(s0[j].key) == Keep
    ensures Partial(s0, j + 1, decide, todayKey) == Partial(s0, j, decide, todayKey)
  {
    var pre := s0[..j];
    var e := s0[j];
    assert s0[..j + 1] == pre + [e];
    assert s0[j..] == [e] + s0[j + 1..];
    KeptConcat(pre, [e], decide);
    VerdictsConcat(pre, [e], decide);
    assert [e][1..] == [];
    assert Kept([e], decide) == [e] && Moved([e], decide) == [];
    assert Verdicts([e], decide) == [Keep];
    assert Move in Verdicts(s0[..j + 1], decide) <==> Move in Verdicts(pre, decide);
    assert Moved(s0[..j + 1], decide) == Moved(pre, decide);
    assert Kept(pre, decide) + [e] + s0[j + 1..] == Kept(pre, decide) + s0[j..];
  }

  /** Once every key has been handled, the store is the expected result. */
  lemma RollDone(s0: Store, decide: Decide, todayKey: string)
    requires Fail !in Verdicts(s0, decide)
    ensures RollKeys(Partial(s0, |s0|, decide, todayKey), Keys(s0)[|s0|..], decide, todayKey)
            == Expected(s0, decide, todayKey)
  {
    assert s0[..|s0|] == s0;
    assert Keys(s0)[|s0|..] == [];
    assert Kept(s0, decide) + s0[|s0|..] == Kept(s0, decide);
    if Move !in Verdicts(s0, decide) {
      KeptNoMove(s0, decide);
    }
  }

  /** A failing key stops the pass with `IndexError`, which is the expected result. */
  lemma RollFail(s0: Store, j: nat, decide: Decide, todayKey: string)
    requires j < |s0| && decide(s0[j].key) == Fail
    ensures RollKeys(Partial(s0, j, decide, todayKey), Keys(s0)[j..], decide, todayKey) == Raised(IndexError)
    ensures Expected(s0, decide, todayKey) == Raised(IndexError)
  {
    assert Keys(s0)[j..][0] == s0[j].key;
    assert Verdicts(s0, decide)[j] == Fail;
  }

  /** A key that does not fail hands the rest of the pass on to the next key. */
  lemma RollStep(s0: Store, j: nat, decide: Decide, todayKey: string)
    requires Distinct(s0) && j < |s0| && decide(todayKey) == Keep
    requires decide(s0[j].key) != Fail
    ensures RollKeys(Partial(s0, j, decide, todayKey), Keys(s0)[j..], decide, todayKey)
            == RollKeys(Partial(s0, j + 1, decide, todayKey), Keys(s0)[j + 1..], decide, todayKey)
  {
    var ks := Keys(s0)[j..];
    assert ks[0] == s0[j].key && ks[1..] == Keys(s0)[j + 1..];
    if decide(s0[j].key) == Keep {
      KeepStep(s0, j, decide, todayKey);
    } else {
      MoveStep(s0, j, decide, todayKey);
    }
  }

  /** No failing key before `j` and none at `j` means none before `j + 1`. */
  lemma NoFailPrefix(s0: Store, j: nat, decide: Decide)
    requires j < |s0| && decide(s0[j].key) != Fail
    requires Fail !in Verdicts(s0[..j], decide)
    ensures Fail !in Verdicts(s0[..j + 1], decide)
  {
    assert s0[..j + 1] == s0[..j] + [s0[j]];
    VerdictsConcat(s0[..j], [s0[j]], decide);
  }

  lemma {:induction false} RollSuffix(s0: Store, j: nat, decide: Decide, todayKey: string)
    requires Distinct(s0) && j <= |s0| && decide(todayKey) == Keep
    requires Fail !in Verdicts(s0[..j], decide)
    ensures RollKeys(Partial(s0, j, decide, todayKey), Keys(s0)[j..], decide, todayKey)
            == Expected(s0, decide, todayKey)
    decreases |s0| - j
  {
    if j == |s0| {
      assert s0[..j] == s0;
      RollDone(s0, decide, todayKey);
    } else if decide(s0[j].key) == Fail {
      RollFail(s0, j, decide, todayKey);
    } else {
      RollStep(s0, j, decide, todayKey);
      NoFailPrefix(s0, j, decide);
      RollSuffix(s0, j + 1, decide, todayKey);
    }
  }

  /**
   A pass over a dict, with any decision that keeps the key the moved tasks go
   to, computes `Expected`: it raises `IndexError` exactly when some key fails,
   never raises `KeyError`, and otherwise leaves the kept items in their order
   with the moved tasks, in key order, after that key's own.
   */
  lemma RollKeysIsExpected(s: Store, decide: Decide, todayKey: string)
    requires Distinct(s) && decide(todayKey) == Keep
    ensures RollKeys(s, Keys(s), decide, todayKey) == Expected(s, decide, todayKey)
  {
    assert s[..0] == [];
    assert s[0..] == s;
    assert Keys(s)[0..] == Keys(s);
    assert Verdicts([], decide) == [];
    assert Partial(s, 0, decide, todayKey) == s by {
      assert Kept([], decide) + s == s;
    }
    RollSuffix(s, 0, decide, todayKey);
  }

  /** `process_overdue_tasks` computes `Expected` for the source's decision. */
  lemma ProcessOverdueIsExpected(s: Store, b: Board)
    requires Distinct(s)
    ensures ProcessOverdue(s, b) == Expected(s, Decision(b), TodayKey(b.today))
  {
    TodayKeyKept(b);
    RollKeysIsExpected(s, Decision(b), TodayKey(b.today));
  }
}
