/** An example: a closed morning shift and a team sync on the same
    all-day date, taken through the filter and the formatter. */
module WorkedExample {
  import opened Wrappers
  import opened Text
  import opened Events
  import opened SlackBot

  /** How Python prints a `start`/`end` object holding only a `date`. */
  function DateOnlyRender(w: When): string
  {
    "{'date': '" + w.date.GetOr("") + "'}"
  }

  const ExampleDay := When(None, Some("2024-01-01"))
  const ExampleShift := Event(Some("1"), Some("Morning Shift Closed"), Some(ExampleDay), Some(ExampleDay))
  const ExampleSync := Event(Some("2"), Some("Team Sync"), Some(ExampleDay), Some(ExampleDay))
  const ExampleText := "ID: 1, \nSummary: Morning Shift Closed, \nStart: {'date': '2024-01-01'}, \nEnd: {'date': '2024-01-01'}"

  /** "Shift" occurs in the example summary at index 8. */
  lemma ExampleHasShift()
    ensures Contains("Morning Shift Closed", ShiftMarker)
  {
    assert "Morning Shift Closed"[8..13] == "Shift";
    assert OccursAt("Morning Shift Closed", ShiftMarker, 8);
    ContainsIffOccurs("Morning Shift Closed", ShiftMarker);
  }

  /** "Closed" occurs in the example summary at index 14. */
  lemma ExampleHasClosed()
    ensures Contains("Morning Shift Closed", ClosedMarker)
  {
    assert "Morning Shift Closed"[14..20] == "Closed";
    assert OccursAt("Morning Shift Closed", ClosedMarker, 14);
    ContainsIffOccurs("Morning Shift Closed", ClosedMarker);
  }

  /** "Team Sync" has no `h`, so "Shift" cannot occur in it. */
  lemma ExampleSyncIsOpen()
    ensures !IsClosedShift(ExampleSync)
  {
    MissingCharNotContained("Team Sync", ShiftMarker, 1);
  }

  /** The worked example, filter half: of a closed morning shift and a
      team sync only the shift is selected. */
  lemma WorkedExampleFilter()
    ensures ClosedShifts([ExampleShift, ExampleSync]) == [ExampleShift]
  {
    ExampleHasShift();
    ExampleHasClosed();
    assert IsClosedShift(ExampleShift);
    ExampleSyncIsOpen();
    assert [ExampleShift, ExampleSync][1..] == [ExampleSync];
    assert [ExampleSync][1..] == [];
  }

  /** The head of the example block. */
  lemma ExampleHead()
    ensures "ID: " + "1" + ", \nSummary: " + "Morning Shift Closed" + ", \nStart: "
            == "ID: 1, \nSummary: Morning Shift Closed, \nStart: "
  {
    assert "ID: " + "1" + ", \nSummary: " == "ID: 1, \nSummary: ";
  }

  /** The middle of the example block. */
  lemma ExampleMiddle()
    ensures "ID: 1, \nSummary: Morning Shift Closed, \nStart: " + "{'date': '2024-01-01'}" + ", \nEnd: "
            == "ID: 1, \nSummary: Morning Shift Closed, \nStart: {'date': '2024-01-01'}, \nEnd: "
  {
  }

  /** The tail of the example block. */
  lemma ExampleTail()
    ensures "ID: 1, \nSummary: Morning Shift Closed, \nStart: {'date': '2024-01-01'}, \nEnd: "
            + "{'date': '2024-01-01'}" == ExampleText
  {
  }

  /** The example shift's block is the expected text plus a newline. */
  lemma ExampleBlock()
    ensures Block(ExampleShift, DateOnlyRender) == ExampleText + "\n"
  {
    var rendered := "{'date': '2024-01-01'}";
    assert DateOnlyRender(ExampleDay) == rendered;
    ExampleHead();
    ExampleMiddle();
    ExampleTail();
  }

  /** The worked example, message half: the shift alone is posted as four
      lines without the trailing newline. */
  lemma WorkedExampleMessage()
    ensures StripNewlines(Blocks([ExampleShift], DateOnlyRender)) == ExampleText
  {
    ExampleBlock();
    assert [ExampleShift][1..] == [];
    assert Blocks([ExampleShift], DateOnlyRender) == ExampleText + "\n";
    assert EndsWithoutNewline(ExampleShift, DateOnlyRender) by {
      assert DateOnlyRender(ExampleDay) == "{'date': '2024-01-01'}";
    }
    MessageDropsFinalNewline([ExampleShift], DateOnlyRender);
    assert (ExampleText + "\n")[..|ExampleText|] == ExampleText;
  }
}
