/** The messages the test suite expands, worked through the general lemmas. */
module NudgeExamples {
  import opened Wrappers
  import opened Nudge

  lemma HintContribute()
    ensures Hint("CONTRIBUTE") == "`prior contribute`"
  {
    assert Lower("CONTRIBUTE") == "contribute";
  }

  lemma HintFeedback()
    ensures Hint("FEEDBACK") == "`prior feedback`"
  {
    assert Lower("FEEDBACK") == "feedback";
  }

  lemma SplitContribute()
    ensures "Try [PRIOR:CONTRIBUTE] your fix." == "Try " + TokenText("CONTRIBUTE", None) + " your fix."
  {
  }

  lemma JoinContribute()
    ensures "Try " + "`prior contribute`" + " your fix." == "Try `prior contribute` your fix."
  {
  }

  lemma ExampleContribute()
    ensures ExpandNudgeTokens(Text("Try [PRIOR:CONTRIBUTE] your fix."))
         == Text("Try `prior contribute` your fix.")
  {
    SplitContribute();
    ExpandOne("Try ", "CONTRIBUTE", None, " your fix.");
    HintContribute();
    JoinContribute();
  }

  lemma SplitFeedback()
    ensures "Did it help? [PRIOR:FEEDBACK]" == "Did it help? " + TokenText("FEEDBACK", None) + ""
  {
  }

  lemma JoinFeedback()
    ensures "Did it help? " + "`prior feedback`" + "" == "Did it help? `prior feedback`"
  {
  }

  lemma ExampleFeedback()
    ensures ExpandNudgeTokens(Text("Did it help? [PRIOR:FEEDBACK]"))
         == Text("Did it help? `prior feedback`")
  {
    SplitFeedback();
    ExpandOne("Did it help? ", "FEEDBACK", None, "");
    HintFeedback();
    JoinFeedback();
  }

  /** The attribute text of the parameterised token in the test suite. */
  const Attributes := "problem=\"NPE\" tags=\"kotlin\""

  lemma SplitAttributes()
    ensures "[PRIOR:CONTRIBUTE problem=\"NPE\" tags=\"kotlin\"]" == "[PRIOR:CONTRIBUTE" + " " + Attributes + "]"
  {
  }

  lemma AttributesToken()
    ensures TokenText("CONTRIBUTE", Some(Attributes)) == "[PRIOR:CONTRIBUTE" + " " + Attributes + "]"
  {
    assert Marker + "CONTRIBUTE" == "[PRIOR:CONTRIBUTE";
  }

  lemma AttributesClosed()
    ensures ']' !in Attributes
  {
  }

  lemma AttributesExpand()
    ensures Expand(TokenText("CONTRIBUTE", Some(Attributes))) == "`prior contribute`"
  {
    AttributesClosed();
    ExpandOne("", "CONTRIBUTE", Some(Attributes), "");
    assert "" + TokenText("CONTRIBUTE", Some(Attributes)) + "" == TokenText("CONTRIBUTE", Some(Attributes));
    HintContribute();
    assert "" + Hint("CONTRIBUTE") + "" == Hint("CONTRIBUTE");
  }

  lemma AttributesMessage()
    ensures "[PRIOR:CONTRIBUTE problem=\"NPE\" tags=\"kotlin\"]" == TokenText("CONTRIBUTE", Some(Attributes))
  {
    SplitAttributes();
    AttributesToken();
  }

  lemma ExampleAttributes()
    ensures ExpandNudgeTokens(Text("[PRIOR:CONTRIBUTE problem=\"NPE\" tags=\"kotlin\"]"))
         == Text("`prior contribute`")
  {
    AttributesMessage();
    AttributesExpand();
  }

  lemma SplitTwoTokens()
    ensures "[PRIOR:CONTRIBUTE] or [PRIOR:FEEDBACK]"
         == "" + TokenText("CONTRIBUTE", None) + (" or " + TokenText("FEEDBACK", None) + "")
  {
  }

  lemma JoinTwoHints()
    ensures "`prior contribute`" + " or `prior feedback`" == "`prior contribute` or `prior feedback`"
  {
  }

  lemma JoinSecond()
    ensures " or " + "`prior feedback`" + "" == " or `prior feedback`"
  {
  }

  lemma SecondToken()
    ensures Expand(" or " + TokenText("FEEDBACK", None) + "") == " or `prior feedback`"
  {
    ExpandOne(" or ", "FEEDBACK", None, "");
    HintFeedback();
    JoinSecond();
  }

  lemma ExampleTwoTokens()
    ensures ExpandNudgeTokens(Text("[PRIOR:CONTRIBUTE] or [PRIOR:FEEDBACK]"))
         == Text("`prior contribute` or `prior feedback`")
  {
    var rest := " or " + TokenText("FEEDBACK", None) + "";
    SplitTwoTokens();
    BracketFree("");
    ExpandsToken("", "CONTRIBUTE", None, rest);
    SecondToken();
    HintContribute();
    assert "" + Hint("CONTRIBUTE") + Expand(rest) == "`prior contribute`" + " or `prior feedback`";
    JoinTwoHints();
  }

  lemma ExampleNoTokens()
    ensures ExpandNudgeTokens(Text("No tokens here.")) == Text("No tokens here.")
  {
    BracketFree("No tokens here.");
    MarkerFreeNoToken("No tokens here.");
    NoTokensIdentity("No tokens here.");
  }

  /** A marker followed by a lower-case word is not a token: the message is copied. */
  lemma ExampleLowerCaseMarker()
    ensures ExpandNudgeTokens(Text("[PRIOR:lower]")) == Text("[PRIOR:lower]")
  {
    var s := "[PRIOR:lower]";
    assert s[|Marker|..] == "lower]";
    assert '[' !in s[1..];
    OnlyHeadBracket(s);
    NoTokensIdentity(s);
  }

  /** A marker with no closing `]` is not a token: the message is copied. */
  lemma ExampleUnclosedMarker()
    ensures ExpandNudgeTokens(Text("[PRIOR:X")) == Text("[PRIOR:X")
  {
    var s := "[PRIOR:X";
    assert s[|Marker|..] == "X";
    assert '[' !in s[1..];
    OnlyHeadBracket(s);
    NoTokensIdentity(s);
  }

  lemma ExampleAbsent()
    ensures ExpandNudgeTokens(Null) == Null && ExpandNudgeTokens(Undefined) == Undefined
  {
  }
}
