/** Worked cases of the start-up rollover on concrete data. */
module Scenarios {
  import opened Wrappers
  import opened PyText
  import opened Stages
  import opened Grid
  import opened TaskStore
  import opened Rollover

  lemma KeyFive()
    ensures ParseInt("5") == Some(5)
  {
    ParseNatToString(5);
    assert NatToString(5) == "5";
  }

  lemma KeyTen()
    ensures TodayKey(10) == "10"
  {
    assert NatToString(10) == "10";
  }

  /** The three-key pass when the first key moves and the other two stay. */
  lemma MoveFirstOfThree(d: Decide)
    requires d("5") == Move && d("10") == Keep && d("x") == Keep
    ensures RollKeys([Entry("5", ["a"]), Entry("10", ["b"]), Entry("x", ["c"])], ["5", "10", "x"], d, "10")
         == Rolled([Entry("10", ["b", "a"]), Entry("x", ["c"])])
  {
    var s := [Entry("5", ["a"]), Entry("10", ["b"]), Entry("x", ["c"])];
    assert Lookup(s, "5") == Some(["a"]);
    assert s[1..] == [Entry("10", ["b"]), Entry("x", ["c"])];
    var s1 := Extend(s, "10", ["a"]);
    assert ["b"] + ["a"] == ["b", "a"];
    assert s[1..][1..] == [Entry("x", ["c"])];
    assert Extend(s[1..], "10", ["a"]) == [Entry("10", ["b", "a"]), Entry("x", ["c"])];
    assert s1 == [Entry("5", ["a"]), Entry("10", ["b", "a"]), Entry("x", ["c"])];
    assert s1[1..] == [Entry("10", ["b", "a"]), Entry("x", ["c"])];
    var s2 := Delete(s1, "5");
    assert [Entry("x", ["c"])][1..] == [];
    assert Delete([Entry("x", ["c"])], "5") == [Entry("x", ["c"])];
    assert s1[1..][1..] == [Entry("x", ["c"])];
    assert s2 == Delete(s1[1..], "5");
    assert Delete(s1[1..], "5") == [Entry("10", ["b", "a"])] + Delete([Entry("x", ["c"])], "5");
    assert s2 == [Entry("10", ["b", "a"]), Entry("x", ["c"])];
    assert ["5", "10", "x"][1..] == ["10", "x"];
    assert ["10", "x"][1..] == ["x"];
    assert ["x"][1..] == [];
  }

  /**
   On day 10, with a white grid, the tasks of day 5 join the end of day 10's
   list and day 5 is gone; a key that is not a number stays where it was.
   */
  lemma OverdueDayMoves()
    ensures ProcessOverdue([Entry("5", ["a"]), Entry("10", ["b"]), Entry("x", ["c"])], Board(InitialGrid(), 10))
         == Rolled([Entry("10", ["b", "a"]), Entry("x", ["c"])])
  {
    var s := [Entry("5", ["a"]), Entry("10", ["b"]), Entry("x", ["c"])];
    var b := Board(InitialGrid(), 10);
    KeyTen();
    KeyFive();
    assert PyIndex(b.grid, 4) == Some(White);
    assert Classify("5", b) == Move;
    assert ParseInt("x") == None;
    TodayKeyKept(b);
    assert Keys(s) == ["5", "10", "x"];
    MoveFirstOfThree(Decision(b));
  }

  /**
   A key that starts with the separator U+001C is not an integer to `int()`,
   so its tasks stay where they are on day 10 with a white grid, although
   `str.strip()` would reduce the same text to "5".
   */
  lemma SeparatorKeyStays()
    ensures Classify("\U{001C}5", Board(InitialGrid(), 10)) == Keep
    ensures Strip("\U{001C}5") == "5"
  {
    SeparatorsRefused("\U{001C}5");
    var s := "\U{001C}5";
    assert SpaceEnd(s, StrSpaces, 1) == 1;
    assert SpaceEnd(s, StrSpaces, 0) == 1;
    assert s[1..2] == "5";
  }

  /** The two-key pass when both keys stay. */
  lemma KeepBoth(d: Decide)
    requires d("5") == Keep && d("10") == Keep
    ensures RollKeys([Entry("5", ["a"]), Entry("10", ["b"])], ["5", "10"], d, "10")
         == Rolled([Entry("5", ["a"]), Entry("10", ["b"])])
  {
    assert ["5", "10"][1..] == ["10"];
    assert ["10"][1..] == [];
  }

  /** On the same day, day 5's tasks stay put once its cell has reached the last stage. */
  lemma DoneDayStays()
    ensures ProcessOverdue([Entry("5", ["a"]), Entry("10", ["b"])], Board(InitialGrid()[4 := Final], 10))
         == Rolled([Entry("5", ["a"]), Entry("10", ["b"])])
  {
    var s := [Entry("5", ["a"]), Entry("10", ["b"])];
    var b := Board(InitialGrid()[4 := Final], 10);
    KeyTen();
    KeyFive();
    TodayKeyKept(b);
    assert Keys(s) == ["5", "10"];
    KeepBoth(Decision(b));
  }

  lemma Render357()
    ensures NatToString(357) == "357"
  {
    assert NatToString(3) == "3";
    assert NatToString(35) == "35";
  }

  lemma KeyMinus357()
    ensures ParseInt("-357") == Some(-357)
  {
    Render357();
    NatDigits(357);
    assert "-357"[1..] == "357";
    MinusParse("-357");
  }

  lemma KeyZero()
    ensures ParseInt("0") == Some(0)
  {
    ParseNatToString(0);
    assert NatToString(0) == "0";
  }

  /** A one-key pass whose key fails. */
  lemma SingleFail(d: Decide, e: Entry, todayKey: string)
    requires d(e.key) == Fail
    ensures RollKeys([e], [e.key], d, todayKey) == Raised(IndexError)
  {
  }

  /**
   A key of -357 or below points before the front of the 357-cell list, so the
   pass stops with `IndexError`; the uncaught exception ends start-up.
   */
  lemma FarBackKeyRaises()
    ensures ProcessOverdue([Entry("-357", ["a"])], Board(InitialGrid(), 10)) == Raised(IndexError)
  {
    KeyMinus357();
    var b := Board(InitialGrid(), 10);
    assert Classify("-357", b) == Fail;
    assert Keys([Entry("-357", ["a"])]) == ["-357"];
    SingleFail(Decision(b), Entry("-357", ["a"]), TodayKey(10));
  }

  /** Key "0" reads cell -1, the last cell of the grid, and moves while that cell is not done. */
  lemma ZeroKeyReadsLastCell()
    ensures Classify("0", Board(InitialGrid(), 10)) == Move
    ensures Classify("0", Board(InitialGrid()[CellCount - 1 := Final], 10)) == Keep
  {
    KeyZero();
  }
}
