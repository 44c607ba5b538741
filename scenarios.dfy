/**
 * Whole conversations, step by step, on concrete tables: what the operator
 * sees happen to the roster and the cards.
 */
module Scenarios {
  import opened Common
  import opened OrmQuery
  import opened Fsm
  import opened Controls
  import opened Wizard

  const Roster: seq<Player> := [Player("A", 0, DirectionReset, StatusNormal),
                                Player("B", 3, DirectionUp, StatusNormal),
                                Player("C", 5, DirectionUp, StatusNormal)]

  lemma RosterEligible()
    ensures EligibleNames(Roster) == ["A", "B", "C"]
  {
    assert Roster == [Roster[0]] + ([Roster[1]] + [Roster[2]]);
    EligibleNamesAppend([Roster[0]], [Roster[1]] + [Roster[2]]);
    EligibleNamesAppend([Roster[1]], [Roster[2]]);
  }

  lemma OthersThanB()
    ensures Without(["A", "B", "C"], ["B"]) == ["A", "C"]
  {
    assert ["A", "B", "C"] == ["A"] + (["B"] + ["C"]);
    WithoutAppend(["A"], ["B"] + ["C"], ["B"]);
    WithoutAppend(["B"], ["C"], ["B"]);
  }

  lemma RosterAfterControl()
    ensures UpdateWhere(UpdateWhere(Roster, ["A", "C"], Increment), ["B"], Decrement)
      == [Player("A", 1, DirectionUp, StatusNormal),
          Player("B", 2, DirectionDown, StatusNormal),
          Player("C", 6, DirectionUp, StatusEscalated)]
  {
    var plus := UpdateWhere(Roster, ["A", "C"], Increment);
    assert plus[0] == Incremented(Roster[0]) && plus[1] == Roster[1] && plus[2] == Incremented(Roster[2]);
  }

  /**
   * A control in which only B was active: A and C move up (C past the
   * threshold, so escalated), B moves down, and the conversation ends.
   */
  lemma ControlWithOneActivePlayer()
    ensures var started := StartStep(EmptySession, Roster);
      var added := AddStep(started, Text("B")).session;
      var shown := ShowStep(added).session;
      var r := PerformStep(shown, Roster);
      && r.outcome == Done
      && r.session == EmptySession
      && r.rows == [Player("A", 1, DirectionUp, StatusNormal),
                    Player("B", 2, DirectionDown, StatusNormal),
                    Player("C", 6, DirectionUp, StatusEscalated)]
  {
    var shown := ShownAfterB();
    RosterAfterControl();
  }

  /** Starting a control on the sample roster and adding B. */
  lemma AddedB() returns (added: Session)
    ensures added == AddStep(StartStep(EmptySession, Roster), Text("B")).session
    ensures added == EmptySession.(state := Some(NameState), allPlayers := Some(["A", "B", "C"]),
                                   selected := Some(["B"]), result := Some([]))
  {
    RosterEligible();
    added := AddStep(StartStep(EmptySession, Roster), Text("B")).session;
  }

  /** Then pressing "+": the other two names become the stored result. */
  lemma ShownAfterB() returns (shown: Session)
    ensures shown == ShowStep(AddStep(StartStep(EmptySession, Roster), Text("B")).session).session
    ensures shown == EmptySession.(state := Some(IdState), allPlayers := Some(["A", "B", "C"]),
                                   selected := Some(["B"]), result := Some(["A", "C"]))
  {
    var added := AddedB();
    OthersThanB();
    shown := ShowStep(added).session;
  }

  /** A name outside the snapshot is refused and the session is left as it was. */
  lemma UnknownNameRefused()
    ensures var started := StartStep(EmptySession, Roster);
      AddStep(started, Text("Ghost")) == Step(started, Rejected)
  {
    var started := StartStep(EmptySession, Roster);
    assert "Ghost" !in EligibleNames(Roster);
  }

  /** With nobody selected, every eligible player moves up. */
  lemma ControlWithNobodyActive(rows: seq<Player>, i: int)
    requires 0 <= i < |rows| && rows[i].statusId == StatusNormal
    ensures var shown := ShowStep(StartStep(EmptySession, rows)).session;
      PerformStep(shown, rows).rows[i] == Incremented(rows[i])
  {
    var shown := ShowStep(StartStep(EmptySession, rows)).session;
    PerformEffect(shown, rows, i);
  }

  /** Creating a card: a name with stray spaces, then a photo, appends the card and ends the conversation. */
  lemma CreateCard(cards: seq<Card>, rows: seq<Player>)
    requires forall c :: c in cards ==> c.name != "T-72"
    ensures var named := NameInputStep(EmptySession.(state := Some(CardName)), Text("  T-72 "), cards, rows);
      && named.outcome == Done
      && var saved := ImageStep(named.session, Photo("file-1"), named.cards, named.rows);
      saved == WizardResult(EmptySession, cards + [Card("T-72", "file-1")], rows, Done)
  {
    var v := EmptySession.(state := Some(CardName));
    TankNamed(v, cards, rows);
    SaveCreatesCard(v.(name := Some("T-72"), state := Some(CardImage), image := Some("file-1")), cards, rows);
  }

  lemma TankNamed(v: Session, cards: seq<Card>, rows: seq<Player>)
    requires v.state == Some(CardName)
    ensures NameInputStep(v, Text("  T-72 "), cards, rows)
      == WizardResult(v.(name := Some("T-72"), state := Some(CardImage)), cards, rows, Done)
  {
    PaddedNameStored(v, "  ", "T-72", " ", cards, rows);
    assert "  " + "T-72" + " " == "  T-72 ";
  }

  /** Back from the image step returns to the name step, keeping what was typed. */
  lemma BackFromImage(v: Session)
    requires v.state == Some(CardImage)
    ensures BackStep(v, true) == Step(v.(state := Some(CardName)), Done)
  {
    BackWithinCards();
  }
}
