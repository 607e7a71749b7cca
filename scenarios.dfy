/**
 * The handler on concrete messages. Each scenario is reduced to the
 * general lemmas: the text is first normalised, its keywords are settled
 * one by one, and the branch lemma then gives the reply.
 */
module Scenarios {
  import opened Wrappers
  import opened Text
  import opened TestAgent
  import opened AgentProperties

  // ---------------------------------------------------------------------
  // The empty message
  // ---------------------------------------------------------------------

  /** The empty message is greeted with an empty echo. */
  lemma ExampleEmpty()
    ensures Respond("", None) == GreetingReply("")
  {
    BlankEchoesEmpty("", None);
  }

  // ---------------------------------------------------------------------
  // "HELP"
  // ---------------------------------------------------------------------

  /** "HELP" gets the help block. */
  lemma ExampleHelp()
    ensures Respond("HELP", None) == HelpReply
  {
    HelpNormal("HELP");
    HelpKeywords("help");
    HelpReached("HELP", None);
  }

  /** "help" gets the same help block as "HELP". */
  lemma ExampleHelpLowercase()
    ensures Respond("help", None) == HelpReply
  {
    HelpNormal("help");
    HelpKeywords("help");
    HelpReached("help", None);
  }

  lemma HelpNormal(msg: string)
    requires msg == "HELP" || msg == "help"
    ensures Normalise(msg) == "help"
  {
    TrimUnchanged(msg);
  }

  /** "help" names only the help keyword: it has no "c", "m" or "s", and is shorter than "health". */
  lemma HelpKeywords(m: string)
    requires m == "help"
    ensures Contains(m, "help")
    ensures !Contains(m, "connection") && !Contains(m, "mindsdb")
    ensures !Contains(m, "status") && !Contains(m, "health")
  {
    assert "help" <= m;
    MissingFirstChar(m, "connection");
    MissingFirstChar(m, "mindsdb");
    MissingFirstChar(m, "status");
    LongerAbsent(m, "health");
  }

  // ---------------------------------------------------------------------
  // "Test Connection please"
  // ---------------------------------------------------------------------

  /** "Test Connection please" contains "connection" once lowercased and gets the connection block. */
  lemma ExampleTestConnection()
    ensures Respond("Test Connection please", None) == ConnectionReply
  {
    var msg := "Test Connection please";
    ConnectionNormal(msg);
    ConnectionLower(msg);
    ConnectionFound(Lower(msg));
    ConnectionWins(msg, None);
  }

  lemma ConnectionNormal(msg: string)
    requires msg == "Test Connection please"
    ensures Normalise(msg) == Lower(msg)
  {
    TrimUnchanged(msg);
  }

  lemma ConnectionLower(msg: string)
    requires msg == "Test Connection please"
    ensures |Lower(msg)| >= 15 && Lower(msg)[5..15] == "connection"
  {
    var m := Lower(msg);
    assert msg[5..15] == "Connection";
    forall i | 5 <= i < 15
      ensures m[i] == "connection"[i - 5]
    {
      assert m[i] == LowerChar(msg[i]);
    }
  }

  lemma ConnectionFound(m: string)
    requires |m| >= 15 && m[5..15] == "connection"
    ensures Contains(m, "connection")
  {
    assert "connection" <= m[5..];
    ContainsIffOccurs(m, "connection");
  }

  // ---------------------------------------------------------------------
  // "what's mindsdb status?"
  // ---------------------------------------------------------------------

  /**
   * "what's mindsdb status?" also contains "status", but the earlier
   * "mindsdb" test wins: with `MINDSDB_URL` unset the reply is the MindsDB
   * report saying Missing and "Not configured".
   */
  lemma ExampleMindsdb()
    ensures Respond("what's mindsdb status?", None) == MindsdbReply(None)
    ensures ReadReport(Respond("what's mindsdb status?", None)) == Some(Report(false, "Not configured"))
  {
    var msg := "what's mindsdb status?";
    MindsdbNormal(msg);
    MindsdbFound(msg);
    NoConnection(msg);
    RouteConditions(msg);
    RespondFollowsRoute(msg, None);
    MindsdbSetButEmpty();
  }

  /** The text is already stripped and has no capitals. */
  lemma MindsdbNormal(msg: string)
    requires msg == "what's mindsdb status?"
    ensures Normalise(msg) == msg
  {
    TrimUnchanged(msg);
    forall i | 0 <= i < |msg|
      ensures !IsAsciiUpper(msg[i])
    {
    }
    LowerUnchanged(msg);
  }

  lemma MindsdbFound(msg: string)
    requires msg == "what's mindsdb status?"
    ensures Contains(msg, "mindsdb")
  {
    assert "mindsdb" <= msg[7..];
    ContainsIffOccurs(msg, "mindsdb");
  }

  /** The text has no "c" at all, so no "connection". */
  lemma NoConnection(msg: string)
    requires msg == "what's mindsdb status?"
    ensures !Contains(msg, "connection")
  {
    MissingFirstChar(msg, "connection");
  }
}
