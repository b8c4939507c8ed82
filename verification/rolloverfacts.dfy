/**
 What the start-up rollover guarantees about the task store: no task is lost
 or duplicated, keys that stay keep their tasks, moved keys are gone, today's
 list gains the moved tasks in key order, and a second pass changes nothing
 (milestone.py:84-95).
 */
module RolloverFacts {
  import opened Wrappers
  import opened PyText
  import opened Stages
  import opened Grid
  import opened TaskStore
  import opened Rollover

  // ---------------------------------------------------------------------------
  // Generic facts about the reference result.

  /** A key that does not move keeps its first item in the kept store; a moving key is gone. */
  lemma {:induction false} LookupKept(s: Store, decide: Decide, k: string)
    ensures decide(k) == Move ==> Lookup(Kept(s, decide), k) == None
    ensures decide(k) != Move ==> Lookup(Kept(s, decide), k) == Lookup(s, k)
    decreases |s|
  {
    if s != [] {
      LookupKept(s[1..], decide, k);
      if decide(s[0].key) != Move {
        var kept := Kept(s, decide);
        assert kept[0] == s[0] && kept[1..] == Kept(s[1..], decide);
      }
    }
  }

  lemma DistinctCons(e: Entry, t: Store)
    requires Distinct(t)
    requires forall x :: x in t ==> x.key != e.key
    ensures Distinct([e] + t)
  {
    var u := [e] + t;
    forall i, j | 0 <= i < j < |u| ensures u[i].key != u[j].key {
      assert u[j] == t[j - 1];
      if i > 0 {
        assert u[i] == t[i - 1];
      } else {
        assert t[j - 1] in t;
      }
    }
  }

  /** The kept items of a dict still form a dict. */
  lemma {:induction false} KeptDistinct(s: Store, decide: Decide)
    requires Distinct(s)
    ensures Distinct(Kept(s, decide))
    decreases |s|
  {
    if s != [] {
      var rest := s[1..];
      KeptDistinct(rest, decide);
      if decide(s[0].key) != Move {
        KeptItems(rest, decide);
        forall x | x in Kept(rest, decide) ensures x.key != s[0].key {
          var i :| 0 <= i < |rest| && rest[i] == x;
          assert x == s[i + 1];
        }
        DistinctCons(s[0], Kept(rest, decide));
      }
    }
  }

  /** Kept items plus moved tasks are exactly the tasks of the store. */
  lemma {:induction false} KeptMovedContents(s: Store, decide: Decide)
    ensures multiset(AllTasks(Kept(s, decide))) + multiset(Moved(s, decide)) == multiset(AllTasks(s))
    decreases |s|
  {
    if s != [] {
      KeptMovedContents(s[1..], decide);
      if decide(s[0].key) != Move {
        var kept := Kept(s, decide);
        assert kept[0] == s[0] && kept[1..] == Kept(s[1..], decide);
      }
    }
  }

  /** An item of a store has its verdict among the store's verdicts. */
  lemma VerdictOfItem(s: Store, decide: Decide, e: Entry)
    requires e in s
    ensures decide(e.key) in Verdicts(s, decide)
  {
    var i :| 0 <= i < |s| && s[i] == e;
    assert Verdicts(s, decide)[i] == decide(e.key);
  }

  /** A store whose every key stays has no moving and no failing verdict. */
  lemma AllKeysKeep(r: Store, decide: Decide)
    requires forall i :: 0 <= i < |r| ==> decide(Keys(r)[i]) == Keep
    ensures Move !in Verdicts(r, decide) && Fail !in Verdicts(r, decide)
  {
    forall i | 0 <= i < |r| ensures Verdicts(r, decide)[i] == Keep {
      assert Keys(r)[i] == r[i].key;
    }
  }

  /** When no key fails, every kept item's key stays. */
  lemma KeptKeysKeep(s: Store, decide: Decide)
    requires Fail !in Verdicts(s, decide)
    ensures forall i :: 0 <= i < |Kept(s, decide)| ==> decide(Keys(Kept(s, decide))[i]) == Keep
  {
    var kept := Kept(s, decide);
    KeptItems(s, decide);
    forall i | 0 <= i < |kept| ensures decide(Keys(kept)[i]) == Keep {
      assert kept[i] in kept;
      VerdictOfItem(s, decide, kept[i]);
    }
  }

  /** After a pass that did not fail, every key of the result stays on another pass. */
  lemma ExpectedSettled(s: Store, decide: Decide, todayKey: string)
    requires decide(todayKey) == Keep && Expected(s, decide, todayKey).Rolled?
    ensures var r := Expected(s, decide, todayKey).store;
      Move !in Verdicts(r, decide) && Fail !in Verdicts(r, decide)
  {
    var r := Expected(s, decide, todayKey).store;
    if Move in Verdicts(s, decide) {
      var kept := Kept(s, decide);
      KeptKeysKeep(s, decide);
      ExtendKeys(kept, todayKey, Moved(s, decide));
      assert forall i :: 0 <= i < |r| ==> decide(Keys(r)[i]) == Keep;
      AllKeysKeep(r, decide);
    } else {
      assert Verdicts(r, decide) == Verdicts(s, decide);
      assert forall v :: v in Verdicts(s, decide) ==> v == Keep;
    }
  }

  // ---------------------------------------------------------------------------
  // The pass as the source runs it.

  /** The pass fails only on a key whose integer value is at most minus the grid size. */
  lemma FailOnlyFarBack(k: string, b: Board)
    ensures Classify(k, b) == Fail <==> ParseInt(k).Some? && ParseInt(k).value <= -|b.grid|
  {
  }

  /**
   The keys the pass leaves alone: one that is not an integer, one not before
   today, one whose cell index is at or past the end of the grid (days 358 on
   for the 357-cell grid), and one whose cell is at the last stage.
   */
  lemma KeptConditions(k: string, b: Board)
    ensures ParseInt(k).None? ==> Classify(k, b) == Keep
    ensures ParseInt(k).Some? && ParseInt(k).value >= b.today ==> Classify(k, b) == Keep
    ensures ParseInt(k).Some? && ParseInt(k).value > |b.grid| ==> Classify(k, b) == Keep
    ensures ParseInt(k).Some? && 1 <= ParseInt(k).value <= |b.grid| && b.grid[ParseInt(k).value - 1] == Final
            ==> Classify(k, b) == Keep
    ensures ParseInt(k).Some? && 1 <= ParseInt(k).value < b.today && ParseInt(k).value <= |b.grid| ==>
            (Classify(k, b) == Move <==> b.grid[ParseInt(k).value - 1] != Final)
  {
  }

  /**
   The rollover stops with an exception exactly when some key fails, and the
   exception is always `IndexError`: the `tasks[day]` lookup never misses.
   */
  lemma RolloverRaises(s: Store, b: Board)
    requires Distinct(s)
    ensures ProcessOverdue(s, b).Raised? <==> exists k :: k in Keys(s) && Classify(k, b) == Fail
    ensures ProcessOverdue(s, b) != Raised(KeyError)
  {
    var decide := Decision(b);
    ProcessOverdueIsExpected(s, b);
    assert ProcessOverdue(s, b).Raised? <==> Fail in Verdicts(s, decide);
    if Fail in Verdicts(s, decide) {
      var i :| 0 <= i < |s| && Verdicts(s, decide)[i] == Fail;
      assert Keys(s)[i] in Keys(s);
    }
  }

  /**
   A finished rollover leaves a dict holding every task of the old store, no
   more and no fewer, and a store where nothing moves unchanged.
   */
  lemma RolloverConserves(s: Store, b: Board)
    requires Distinct(s) && ProcessOverdue(s, b).Rolled?
    ensures Distinct(ProcessOverdue(s, b).store)
    ensures multiset(AllTasks(ProcessOverdue(s, b).store)) == multiset(AllTasks(s))
    ensures |AllTasks(ProcessOverdue(s, b).store)| == |AllTasks(s)|
    ensures Move !in Verdicts(s, Decision(b)) ==> ProcessOverdue(s, b).store == s
  {
    var decide := Decision(b);
    var t := TodayKey(b.today);
    ProcessOverdueIsExpected(s, b);
    if Move in Verdicts(s, decide) {
      var kept := Kept(s, decide);
      KeptDistinct(s, decide);
      ExtendDistinct(kept, t, Moved(s, decide));
      ExtendAllTasks(kept, t, Moved(s, decide));
      KeptMovedContents(s, decide);
    }
    var r := ProcessOverdue(s, b).store;
    assert |AllTasks(r)| == |multiset(AllTasks(r))|;
    assert |AllTasks(s)| == |multiset(AllTasks(s))|;
  }

  /**
   Key by key, a finished rollover: a key that stays (other than today's)
   keeps its tasks, a key that moves is gone, and today's list is its old
   contents (or nothing) followed by the moved tasks in key order, created
   last in key order if it was missing.
   */
  lemma RolloverKeys(s: Store, b: Board)
    requires Distinct(s) && ProcessOverdue(s, b).Rolled?
    ensures var r := ProcessOverdue(s, b).store;
      forall k :: k != TodayKey(b.today) && Classify(k, b) != Move ==> Lookup(r, k) == Lookup(s, k)
    ensures var r := ProcessOverdue(s, b).store;
      forall k :: Classify(k, b) == Move ==> Lookup(r, k) == None
    ensures var r := ProcessOverdue(s, b).store;
      Move in Verdicts(s, Decision(b)) ==>
        Lookup(r, TodayKey(b.today)) == Some(Get(s, TodayKey(b.today)) + Moved(s, Decision(b)))
    ensures var r := ProcessOverdue(s, b).store;
      Move in Verdicts(s, Decision(b)) && TodayKey(b.today) !in Keys(s) ==>
        Keys(r) == Keys(Kept(s, Decision(b))) + [TodayKey(b.today)]
  {
    var decide := Decision(b);
    var t := TodayKey(b.today);
    ProcessOverdueIsExpected(s, b);
    TodayKeyKept(b);
    var r := ProcessOverdue(s, b).store;
    if Move in Verdicts(s, decide) {
      var kept := Kept(s, decide);
      ExtendSpec(kept, t, Moved(s, decide));
      forall k | k != t && Classify(k, b) != Move ensures Lookup(r, k) == Lookup(s, k) {
        LookupKept(s, decide, k);
      }
      forall k | Classify(k, b) == Move ensures Lookup(r, k) == None {
        LookupKept(s, decide, k);
      }
      LookupKept(s, decide, t);
      if t !in Keys(s) {
        assert Lookup(kept, t) == None;
      }
    } else {
      forall k | Classify(k, b) == Move ensures Lookup(r, k) == None {
        assert k !in Keys(s);
      }
    }
  }

  /** Running the rollover again on its own result changes nothing. */
  lemma RolloverIdempotent(s: Store, b: Board)
    requires Distinct(s) && ProcessOverdue(s, b).Rolled?
    ensures ProcessOverdue(ProcessOverdue(s, b).store, b) == ProcessOverdue(s, b)
  {
    var decide := Decision(b);
    var t := TodayKey(b.today);
    ProcessOverdueIsExpected(s, b);
    TodayKeyKept(b);
    RolloverConserves(s, b);
    var r := ProcessOverdue(s, b).store;
    ExpectedSettled(s, decide, t);
    ProcessOverdueIsExpected(r, b);
  }

  /** After a finished rollover every key of the result stays: nothing is left to move and nothing fails. */
  lemma RolloverSettles(s: Store, b: Board)
    requires Distinct(s) && ProcessOverdue(s, b).Rolled?
    ensures forall k :: k in Keys(ProcessOverdue(s, b).store) ==> Classify(k, b) == Keep
  {
    var decide := Decision(b);
    var t := TodayKey(b.today);
    ProcessOverdueIsExpected(s, b);
    TodayKeyKept(b);
    ExpectedSettled(s, decide, t);
    var r := ProcessOverdue(s, b).store;
    forall k | k in Keys(r) ensures Classify(k, b) == Keep {
      var i :| 0 <= i < |r| && Keys(r)[i] == k;
      assert Verdicts(r, decide)[i] == decide(k);
    }
  }

  /** A store whose every key stays comes through the rollover unchanged. */
  lemma SettledRollsToItself(s: Store, b: Board)
    requires Distinct(s)
    requires forall k :: k in Keys(s) ==> Classify(k, b) == Keep
    ensures ProcessOverdue(s, b) == Rolled(s)
  {
    var decide := Decision(b);
    ProcessOverdueIsExpected(s, b);
    forall i | 0 <= i < |s| ensures Verdicts(s, decide)[i] == Keep {
      assert s[i].key == Keys(s)[i];
    }
  }

  /**
   A click on any cell never makes a staying key move or fail: it can only turn
   a cell into the last stage, never out of it, and the grid keeps its size.
   */
  lemma KeepAfterAdvance(k: string, b: Board, j: nat)
    requires j < |b.grid|
    ensures Classify(k, b) == Keep ==> Classify(k, Board(b.grid[j := Advance(b.grid[j])], b.today)) == Keep
  {
    var g := b.grid[j := Advance(b.grid[j])];
    if Classify(k, b) == Keep && ParseInt(k).Some? {
      var idx := ParseInt(k).value - 1;
      if idx + 1 < b.today && idx < |g| {
        PyIndexAdvance(b.grid, j, idx);
      }
    }
  }

  /** A cell at the last stage still reads as the last stage after any click. */
  lemma PyIndexAdvance(grid: seq<string>, j: nat, i: int)
    requires j < |grid|
    ensures PyIndex(grid[j := Advance(grid[j])], i).None? == PyIndex(grid, i).None?
    ensures PyIndex(grid, i) == Some(Final) ==> PyIndex(grid[j := Advance(grid[j])], i) == Some(Final)
  {
    var g := grid[j := Advance(grid[j])];
    if -|grid| <= i < |grid| {
      var p := if i >= 0 then i else |grid| + i;
      assert PyIndex(grid, i) == Some(grid[p]);
      assert PyIndex(g, i) == Some(g[p]);
    }
  }
}
