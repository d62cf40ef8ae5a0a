/** A small set of tables that is fit for scanning: the tokens are the runs of the letter `a`. State
    0 is the error state, 1 is inside a run, 2 is the start. */
module DsslExample {
  import opened DsslTables
  import opened TokenMachine
  import opened DsslScanner

  const TABLES: Tables := Tables(
    actions := [0, 1, 79, 1, CLEAR_START, 1, MARK_START],
    condOffsets := [0, 0, 0], condLengths := [0, 0, 0], condKeys := [], condSpaces := [],
    keyOffsets := [0, 0, 1], transKeys := [97, 97], singleLengths := [0, 1, 1], rangeLengths := [0, 0, 0],
    indexOffsets := [0, 1, 3], indicies := [0, 1, 2, 1, 0],
    transTargs := [0, 1, 2], transActions := [0, 0, 1],
    toStateActions := [0, 0, 3], fromStateActions := [0, 0, 5], eofTrans := [0, 3, 0],
    start := 2, firstFinal := 1)

  lemma Lists()
    ensures ActionList(TABLES, 0) == [] && ActionList(TABLES, 1) == [79]
    ensures ActionList(TABLES, 3) == [CLEAR_START] && ActionList(TABLES, 5) == [MARK_START]
  {
  }

  lemma HasLayout()
    ensures Layout(TABLES)
  {
    forall cs | IsState(TABLES, cs)
      ensures StateFits(TABLES, cs)
    {
      assert cs == 0 || cs == 1 || cs == 2;
    }
  }

  lemma Moves()
    ensures MoveOf(TABLES, 0) == Fail && MoveOf(TABLES, 1) == On(1, false) && MoveOf(TABLES, 2) == Close(Before)
    ensures Codes(TABLES, 0) == [] && Codes(TABLES, 1) == [] && Codes(TABLES, 2) == [79]
    ensures EofExit(TABLES, 0) == Missing && EofExit(TABLES, 1) == Before && EofExit(TABLES, 2) == Missing
  {
    Lists();
  }

  lemma WayOut(cs: nat, trans: nat)
    requires Leaves(TABLES, cs, trans)
    ensures if cs == 0 then trans == 0 else if cs == 1 then trans in {1, 2} else cs == 2 && trans in {0, 1}
  {
    assert cs == 0 || cs == 1 || cs == 2;
    assert TABLES.indicies[0..1] == [0] && TABLES.indicies[1..3] == [1, 2] && TABLES.indicies[3..5] == [1, 0];
  }

  lemma StatesScan(cs: nat)
    requires Layout(TABLES) && IsState(TABLES, cs) && StateFits(TABLES, cs)
    ensures StateScans(TABLES, cs)
  {
    Lists();
    Moves();
    hide MoveOf, Codes, EofExit, Leaves, ActionList;
    assert cs == 0 || cs == 1 || cs == 2;
    forall trans | Leaves(TABLES, cs, trans)
      ensures ListFits(TABLES, trans) && TransitionScans(TABLES, cs, trans)
    {
      WayOut(cs, trans);
      NothingIsLost();
    }
  }

  lemma NothingIsLost()
    ensures !CanLoseMatch(TABLES, 1)
  {
    Moves();
    forall trans | Leaves(TABLES, 1, trans)
      ensures !LagsAfter(TABLES, trans)
    {
      WayOut(1, trans);
    }
  }

  /** So the condition on tables can be met, and everything proved under it holds of these. */
  lemma ExampleIsWellFormed()
    ensures WellFormed(TABLES)
  {
    HasLayout();
    forall cs | IsState(TABLES, cs)
      ensures StateFits(TABLES, cs) && StateScans(TABLES, cs)
    {
      StatesScan(cs);
    }
  }
}
