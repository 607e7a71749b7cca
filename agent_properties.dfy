/**
 * What the handler promises: the priority between overlapping keywords,
 * the exact condition under which each reply is given, the agreement of
 * the MindsDB status words with one configuration flag, the echo of the
 * default branch, and case-insensitive matching.
 */
module AgentProperties {
  import opened Wrappers
  import opened Text
  import opened TestAgent

  /** None of the handler's keywords occurs in the normalised text `m`. */
  predicate NoKeyword(m: string) {
    !Contains(m, "connection") && !Contains(m, "mindsdb") && !Contains(m, "status")
    && !Contains(m, "health") && !Contains(m, "help")
  }

  // ---------------------------------------------------------------------
  // Routing
  // ---------------------------------------------------------------------

  /** The `"test connection"` test of the first guard adds nothing to the `"connection"` test. */
  lemma ConnectionGuardRedundant(m: string)
    ensures (Contains(m, "test connection") || Contains(m, "connection")) <==> Contains(m, "connection")
  {
    if Contains(m, "test connection") {
      assert "test connection" == "test " + "connection";
      ContainsSuffixOf(m, "test ", "connection");
    }
  }

  /** Each branch of the rule table is taken exactly when its keywords occur and no earlier rule's do. */
  lemma RouteConditions(m: string)
    ensures Route(m) == ConnectionTest <==> Contains(m, "connection")
    ensures Route(m) == MindsdbCheck <==> !Contains(m, "connection") && Contains(m, "mindsdb")
    ensures Route(m) == HealthCheck <==>
              !Contains(m, "connection") && !Contains(m, "mindsdb")
              && (Contains(m, "status") || Contains(m, "health"))
    ensures Route(m) == HelpList <==>
              !Contains(m, "connection") && !Contains(m, "mindsdb")
              && !Contains(m, "status") && !Contains(m, "health") && Contains(m, "help")
    ensures Route(m) == Greeting <==> NoKeyword(m)
  {
    ConnectionGuardRedundant(m);
    KeywordLists(m, "test connection", "connection");
    KeywordLists(m, "mindsdb", "mindsdb");
    KeywordLists(m, "status", "health");
    KeywordLists(m, "help", "help");
    FirstMatchOfFour(Rules[0], Rules[1], Rules[2], Rules[3], m);
    assert Rules == [Rules[0], Rules[1], Rules[2], Rules[3]];
  }

  /** The first-match search over a table of four rules, unfolded. */
  lemma FirstMatchOfFour(r0: Rule, r1: Rule, r2: Rule, r3: Rule, m: string)
    ensures FirstMatch([r0, r1, r2, r3], m)
            == if Matches(r0, m) then r0.branch
               else if Matches(r1, m) then r1.branch
               else if Matches(r2, m) then r2.branch
               else if Matches(r3, m) then r3.branch
               else Greeting
  {
    assert [r3][1..] == [];
    assert FirstMatch([r3], m) == if Matches(r3, m) then r3.branch else Greeting;
    assert [r2, r3][1..] == [r3];
    assert FirstMatch([r2, r3], m) == if Matches(r2, m) then r2.branch else FirstMatch([r3], m);
    assert [r1, r2, r3][1..] == [r2, r3];
    assert FirstMatch([r1, r2, r3], m) == if Matches(r1, m) then r1.branch else FirstMatch([r2, r3], m);
    assert [r0, r1, r2, r3][1..] == [r1, r2, r3];
  }

  lemma KeywordLists(m: string, a: string, b: string)
    ensures ContainsAny(m, [a]) <==> Contains(m, a)
    ensures ContainsAny(m, [a, b]) <==> Contains(m, a) || Contains(m, b)
  {
    assert [a][1..] == [];
    assert [b][1..] == [];
    assert ContainsAny(m, [b]) <==> Contains(m, b);
    assert [a, b][1..] == [b];
  }

  /** The handler's if/elif chain gives the reply of the first matching rule of the table. */
  lemma RespondFollowsRoute(msg: string, mindsdbUrl: Option<string>)
    ensures Respond(msg, mindsdbUrl) == Render(Route(Normalise(msg)), Trim(msg), mindsdbUrl)
  {
    var m := Normalise(msg);
    ConnectionGuardRedundant(m);
    RouteConditions(m);
  }

  // ---------------------------------------------------------------------
  // Replies read back
  // ---------------------------------------------------------------------

  /** Every reply names the branch that produced it, so no two branches share a reply. */
  lemma RenderNamesBranch(b: Branch, said: string, mindsdbUrl: Option<string>)
    ensures BranchOf(Render(b, said, mindsdbUrl)) == Some(b)
  {
    match b
    case ConnectionTest => ConnectionReplyNamed();
    case MindsdbCheck => MindsdbReplyNamed(mindsdbUrl);
    case HealthCheck => HealthReplyNamed();
    case HelpList => HelpReplyNamed();
    case Greeting => GreetingReplyNamed(said);
  }

  lemma ConnectionReplyNamed()
    ensures BranchOf(ConnectionReply) == Some(ConnectionTest)
  {
  }

  lemma MindsdbReplyNamed(mindsdbUrl: Option<string>)
    ensures BranchOf(MindsdbReply(mindsdbUrl)) == Some(MindsdbCheck)
  {
    MindsdbReplyShape(mindsdbUrl);
    var r := MindsdbReply(mindsdbUrl);
    if Configured(mindsdbUrl) {
      assert r[4] == 'M' != ConnectionTitle[4];
      assert "✅" + MindsdbTitle <= FoundHead <= r;
    } else {
      assert r[0] == '⚠' != ConnectionTitle[0];
      assert "⚠️" + MindsdbTitle <= MissingHead <= r;
    }
  }

  lemma HealthReplyNamed()
    ensures BranchOf(HealthReply) == Some(HealthCheck)
  {
    var r := HealthReply;
    assert r[0] == '🏥' != ConnectionTitle[0];
  }

  lemma HelpReplyNamed()
    ensures BranchOf(HelpReply) == Some(HelpList)
  {
    var r := HelpReply;
    assert r[0] == '\n' != ConnectionTitle[0];
    assert r[0] != HealthTitle[0];
  }

  lemma GreetingReplyNamed(said: string)
    ensures BranchOf(GreetingReply(said)) == Some(Greeting)
  {
    var r := GreetingReply(said);
    assert r[0] == '👋' != ConnectionTitle[0];
    assert r[0] != HealthTitle[0];
  }

  /** The handler's reply names the branch the rule table picks for the normalised text. */
  lemma RespondNamesBranch(msg: string, mindsdbUrl: Option<string>)
    ensures BranchOf(Respond(msg, mindsdbUrl)) == Some(Route(Normalise(msg)))
  {
    RespondFollowsRoute(msg, mindsdbUrl);
    RenderNamesBranch(Route(Normalise(msg)), Trim(msg), mindsdbUrl);
  }

  /** The MindsDB reply is the head of one state, the URL shown, and the tail of the same state. */
  lemma MindsdbReplyShape(mindsdbUrl: Option<string>)
    ensures Configured(mindsdbUrl) ==>
              MindsdbReply(mindsdbUrl) == FoundHead + mindsdbUrl.value + ReadyTail
    ensures !Configured(mindsdbUrl) ==>
              MindsdbReply(mindsdbUrl) == MissingHead + mindsdbUrl.GetOr("Not configured") + NeedsTail
  {
  }

  /**
   * One flag decides the emoji, the configuration word and the status line
   * together; the reply reads back as the flag and the URL shown, which is
   * the variable's value when it is set and "Not configured" when it is not.
   */
  lemma MindsdbReplyAgrees(mindsdbUrl: Option<string>)
    ensures ReadReport(MindsdbReply(mindsdbUrl))
            == Some(Report(Configured(mindsdbUrl), mindsdbUrl.GetOr("Not configured")))
    ensures FoundHead <= MindsdbReply(mindsdbUrl) <==> Configured(mindsdbUrl)
    ensures EndsWith(MindsdbReply(mindsdbUrl), ReadyTail) <==> Configured(mindsdbUrl)
    ensures MissingHead <= MindsdbReply(mindsdbUrl) <==> !Configured(mindsdbUrl)
    ensures EndsWith(MindsdbReply(mindsdbUrl), NeedsTail) <==> !Configured(mindsdbUrl)
  {
    MindsdbReplyShape(mindsdbUrl);
    var r := MindsdbReply(mindsdbUrl);
    var shown := mindsdbUrl.GetOr("Not configured");
    if Configured(mindsdbUrl) {
      assert r[0] == '✅' != MissingHead[0];
      assert r[|r| - 1] == 's' != NeedsTail[|NeedsTail| - 1];
      assert r[|r| - |ReadyTail|..] == ReadyTail;
      assert r[|FoundHead|..|r| - |ReadyTail|] == shown;
    } else {
      assert r[0] == '⚠' != FoundHead[0];
      assert r[|r| - 1] == 'n' != ReadyTail[|ReadyTail| - 1];
      assert r[|r| - |NeedsTail|..] == NeedsTail;
      assert r[|MissingHead|..|r| - |NeedsTail|] == shown;
    }
  }

  /** MINDSDB_URL set to the empty string: reported as missing, with an empty Target URL rather than "Not configured". */
  lemma MindsdbSetButEmpty()
    ensures ReadReport(MindsdbReply(Some(""))) == Some(Report(false, ""))
    ensures ReadReport(MindsdbReply(None)) == Some(Report(false, "Not configured"))
  {
    MindsdbReplyAgrees(Some(""));
    MindsdbReplyAgrees(None);
  }

  /** The greeting gives back exactly the text it was built with. */
  lemma GreetingEchoes(said: string)
    ensures EchoedText(GreetingReply(said)) == Some(said)
  {
    var r := GreetingReply(said);
    assert r[|r| - |GreetingTail|..] == GreetingTail;
    assert r[|GreetingHead|..|r| - |GreetingTail|] == said;
  }

  /** Only a MindsDB reply reads back as a report. */
  lemma ReportsComeFromMindsdb(reply: string)
    requires ReadReport(reply).Some?
    ensures BranchOf(reply) == Some(MindsdbCheck)
  {
    if FoundHead <= reply {
      assert "✅" + MindsdbTitle <= FoundHead;
      assert reply[4] == 'M';
    } else {
      assert "⚠️" + MindsdbTitle <= MissingHead;
      assert reply[0] == '⚠';
    }
  }

  /** Only a greeting echoes text back. */
  lemma EchoesComeFromGreeting(reply: string)
    requires EchoedText(reply).Some?
    ensures BranchOf(reply) == Some(Greeting)
  {
    assert "👋 **Hello!**" <= GreetingHead;
    assert reply[0] == '👋';
  }

  // ---------------------------------------------------------------------
  // The handler, branch by branch
  // ---------------------------------------------------------------------

  /** Any text containing "connection" gets the connection block, whatever else it contains, and nothing else does. */
  lemma ConnectionWins(msg: string, mindsdbUrl: Option<string>)
    ensures Respond(msg, mindsdbUrl) == ConnectionReply <==> Contains(Normalise(msg), "connection")
  {
    ConnectionReplyNamed();
    RespondNamesBranch(msg, mindsdbUrl);
    RouteConditions(Normalise(msg));
  }

  /** The MindsDB report is given exactly when "mindsdb" occurs and "connection" does not. */
  lemma MindsdbReached(msg: string, mindsdbUrl: Option<string>)
    ensures var m := Normalise(msg);
            ReadReport(Respond(msg, mindsdbUrl))
            == if !Contains(m, "connection") && Contains(m, "mindsdb")
               then Some(Report(Configured(mindsdbUrl), mindsdbUrl.GetOr("Not configured")))
               else None
  {
    var m := Normalise(msg);
    RespondNamesBranch(msg, mindsdbUrl);
    RespondFollowsRoute(msg, mindsdbUrl);
    RouteConditions(m);
    if ReadReport(Respond(msg, mindsdbUrl)).Some? {
      ReportsComeFromMindsdb(Respond(msg, mindsdbUrl));
    }
    if Route(m) == MindsdbCheck {
      MindsdbReplyAgrees(mindsdbUrl);
    }
  }

  /** The fixed health block answers exactly the texts with "status" or "health" and neither earlier keyword. */
  lemma HealthReached(msg: string, mindsdbUrl: Option<string>)
    ensures var m := Normalise(msg);
            Respond(msg, mindsdbUrl) == HealthReply <==>
              !Contains(m, "connection") && !Contains(m, "mindsdb")
              && (Contains(m, "status") || Contains(m, "health"))
  {
    HealthReplyNamed();
    RespondNamesBranch(msg, mindsdbUrl);
    RouteConditions(Normalise(msg));
  }

  /** The fixed help block answers exactly the texts with "help" and none of the earlier keywords. */
  lemma HelpReached(msg: string, mindsdbUrl: Option<string>)
    ensures var m := Normalise(msg);
            Respond(msg, mindsdbUrl) == HelpReply <==>
              !Contains(m, "connection") && !Contains(m, "mindsdb")
              && !Contains(m, "status") && !Contains(m, "health") && Contains(m, "help")
  {
    HelpReplyNamed();
    RespondNamesBranch(msg, mindsdbUrl);
    RouteConditions(Normalise(msg));
  }

  /** The greeting is given exactly when no keyword occurs, and echoes the stripped text in its original case. */
  lemma EchoReached(msg: string, mindsdbUrl: Option<string>)
    ensures EchoedText(Respond(msg, mindsdbUrl))
            == if NoKeyword(Normalise(msg)) then Some(Trim(msg)) else None
  {
    var m := Normalise(msg);
    RespondNamesBranch(msg, mindsdbUrl);
    RespondFollowsRoute(msg, mindsdbUrl);
    RouteConditions(m);
    if EchoedText(Respond(msg, mindsdbUrl)).Some? {
      EchoesComeFromGreeting(Respond(msg, mindsdbUrl));
    }
    if NoKeyword(m) {
      GreetingEchoes(Trim(msg));
    }
  }

  /** Empty or whitespace-only text reaches the greeting, which echoes an empty string. */
  lemma BlankEchoesEmpty(msg: string, mindsdbUrl: Option<string>)
    requires forall i :: 0 <= i < |msg| ==> IsSpace(msg[i])
    ensures Respond(msg, mindsdbUrl) == GreetingReply("")
  {
    assert Normalise(msg) == [];
  }

  /**
   * Matching ignores ASCII case: texts equal up to case get the same reply,
   * except that a greeting echoes each text in its own case.
   */
  lemma CaseInsensitive(a: string, b: string, mindsdbUrl: Option<string>)
    requires Lower(a) == Lower(b)
    ensures Route(Normalise(a)) == Route(Normalise(b))
    ensures EchoedText(Respond(a, mindsdbUrl)).None? ==> Respond(a, mindsdbUrl) == Respond(b, mindsdbUrl)
    ensures EchoedText(Respond(a, mindsdbUrl)).Some? <==> EchoedText(Respond(b, mindsdbUrl)).Some?
    ensures EchoedText(Respond(a, mindsdbUrl)).Some? ==>
              Lower(EchoedText(Respond(a, mindsdbUrl)).value) == Lower(EchoedText(Respond(b, mindsdbUrl)).value)
  {
    TrimKeepsCaseEquivalence(a, b);
    var m := Normalise(a);
    assert Normalise(b) == m;
    EchoReached(a, mindsdbUrl);
    EchoReached(b, mindsdbUrl);
    if !NoKeyword(m) {
      RouteConditions(m);
      RespondFollowsRoute(a, mindsdbUrl);
      RespondFollowsRoute(b, mindsdbUrl);
      var r := Route(m);
      assert r != Greeting;
      assert Render(r, Trim(a), mindsdbUrl) == Render(r, Trim(b), mindsdbUrl);
    }
  }
}
