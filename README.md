# Threat Hunter Test Agent: the message handler, modelled in Dafny

The Threat Hunter Test Agent is a diagnostic chat agent for the BeeAI
platform. Its handler `threat_hunter_test_agent` takes one incoming text and
sends back exactly one reply. It strips the text and lowercases it, then
runs an ordered, first-match-wins chain of substring tests:

1. "test connection" or "connection" gives a fixed connection-success block.
2. "mindsdb" gives a MindsDB configuration report built from `MINDSDB_URL`.
3. "status" or "health" gives a fixed health-check block.
4. "help" gives a fixed command list.
5. Anything else gives a greeting that echoes the stripped text in its original case.

The model is pure, like the handler.

- `wrappers.dfy` (`Wrappers`): `Option`, used for `MINDSDB_URL`, which may be unset.
- `text.dfy` (`Text`): Python's string operations as the handler uses them.
  - Substring search `Contains`, proved equal to a reference definition `Occurs`.
  - `Trim` for `str.strip()`, with the whitespace set of `str.isspace()`.
  - `Lower` for `str.lower()`, restricted to ASCII letters.
- `test_agent.dfy` (`TestAgent`): the handler itself.
  - The five replies, character for character as the source builds them.
  - `Respond`, the if/elif chain, with the environment value passed in as `Option<string>`.
  - The same dispatch written as an ordered rule table: `Rules`, `FirstMatch`, `Route`.
  - Decoders that read a reply back: `BranchOf` gives its branch, `ReadReport` gives the MindsDB flag and URL, `EchoedText` gives the greeting's echo.
- `agent_properties.dfy` (`AgentProperties`): the lemmas.
  - The if/elif chain agrees with the rule table.
  - Each branch is reached exactly when its keywords occur and no earlier keyword does.
  - Every reply reads back as the branch that produced it.
  - The MindsDB status words never disagree with one another.
  - Matching ignores ASCII case.
- `scenarios.dfy` (`Scenarios`): the handler on concrete messages, each reduced to the general lemmas.

`MINDSDB_URL` set to the empty string: the source counts it as not
configured (`bool("")` is false), so the reply says "Missing" and "Needs
configuration". But it shows the empty value as the Target URL, because
`os.getenv`'s default "Not configured" applies only when the variable is
unset. The model follows the code here.

## Model

| member | source | states |
|---|---|---|
| Text.ContainsIffOccurs | src/beeai_threat_hunter/agents/test_agent.py:76-85 | the recursive substring search behind every `in` test holds exactly when the keyword is a prefix of some suffix of the text |
| Text.ContainsSuffixOf | src/beeai_threat_hunter/agents/test_agent.py:76 | a text containing `a + b` also contains `b` |
| Text.TrimStart | src/beeai_threat_hunter/agents/test_agent.py:73 | left half of `strip()`: returns a suffix of the input; everything removed is whitespace; the result is empty or starts with a non-whitespace character |
| Text.TrimEnd | src/beeai_threat_hunter/agents/test_agent.py:73 | right half of `strip()`: returns a prefix of the input; everything removed is whitespace; the result is empty or ends with a non-whitespace character |
| Text.Trim | src/beeai_threat_hunter/agents/test_agent.py:73 | `strip()`: the result occurs in the input and neither starts nor ends with whitespace; it is empty exactly when the input is all whitespace (that only the two ends are cut is Text.TrimExact) |
| Text.TrimExact | src/beeai_threat_hunter/agents/test_agent.py:73 | `strip()` removes whitespace only at the two ends: the result is exactly what follows the leading whitespace run, and everything after it is whitespace, so inner whitespace is kept ("a b" stays "a b") |
| Text.TrimKeepsCaseEquivalence | src/beeai_threat_hunter/agents/test_agent.py:73 | two texts equal up to ASCII case stay equal up to case after stripping, so both normalise to the same text |
| TestAgent.FirstMatch | src/beeai_threat_hunter/agents/test_agent.py:76-101 | ordered dispatch: the first rule whose keywords occur decides the branch, and the default branch is taken when no rule matches |
| AgentProperties.ConnectionGuardRedundant | src/beeai_threat_hunter/agents/test_agent.py:76 | the first guard `"test connection" in m or "connection" in m` is equivalent to `"connection" in m` |
| AgentProperties.RouteConditions | src/beeai_threat_hunter/agents/test_agent.py:76-101 | the branch chosen for a normalised text, exactly: connection iff "connection" occurs; mindsdb iff "mindsdb" occurs without "connection"; health iff "status" or "health" occurs without the earlier keywords; help iff "help" occurs without the earlier keywords; greeting iff no keyword occurs |
| AgentProperties.RespondFollowsRoute | src/beeai_threat_hunter/agents/test_agent.py:73-101 | the handler's if/elif chain gives the same reply as the ordered rule table applied to the stripped, lowercased text |
| AgentProperties.RenderNamesBranch | src/beeai_threat_hunter/agents/test_agent.py:76-101 | every reply, whatever URL or echoed text it carries, reads back as the branch that produced it, so no two branches can give the same reply |
| AgentProperties.RespondNamesBranch | src/beeai_threat_hunter/agents/test_agent.py:73-103 | every message gets exactly one reply, and that reply identifies the branch the ordered keyword tests select |
| AgentProperties.MindsdbReplyAgrees | src/beeai_threat_hunter/agents/test_agent.py:79-82 | the reply reads back as the configuration flag (`bool` of the variable: set and non-empty) and the URL shown (the value if set, "Not configured" if unset); it starts with the ✅/Found head iff it ends with "Ready for connections", and with the ⚠️/Missing head iff it ends with "Needs configuration", so no reply mixes the two states |
| AgentProperties.MindsdbSetButEmpty | src/beeai_threat_hunter/agents/test_agent.py:79-80 | an unset variable is reported as Missing and shows the placeholder "Not configured"; a set but empty one is also reported as Missing, but shows its own empty value as the Target URL, not the placeholder |
| AgentProperties.GreetingEchoes | src/beeai_threat_hunter/agents/test_agent.py:101 | the greeting gives back exactly the text embedded in it |
| AgentProperties.ConnectionWins | src/beeai_threat_hunter/agents/test_agent.py:76-77 | the connection block is the reply iff the normalised text contains "connection", whatever other keywords it contains |
| AgentProperties.MindsdbReached | src/beeai_threat_hunter/agents/test_agent.py:78-82 | the reply is a MindsDB report iff the normalised text contains "mindsdb" and not "connection"; that report carries the configuration flag and the URL shown |
| AgentProperties.HealthReached | src/beeai_threat_hunter/agents/test_agent.py:83-84 | the one fixed health block is the reply iff "status" or "health" occurs and neither "connection" nor "mindsdb" does |
| AgentProperties.HelpReached | src/beeai_threat_hunter/agents/test_agent.py:85-99 | the one fixed help block is the reply iff "help" occurs and none of the earlier keywords does |
| AgentProperties.EchoReached | src/beeai_threat_hunter/agents/test_agent.py:100-101 | the reply is a greeting iff no keyword occurs in the normalised text, and then it echoes the stripped text in its original case |
| AgentProperties.BlankEchoesEmpty | src/beeai_threat_hunter/agents/test_agent.py:100-101 | empty or whitespace-only text reaches the default branch and echoes an empty string |
| AgentProperties.CaseInsensitive | src/beeai_threat_hunter/agents/test_agent.py:73 | texts equal up to ASCII case take the same branch and get the same reply, except that each greeting echoes its own text (the two echoes are equal up to case) |
| Scenarios.ExampleEmpty | src/beeai_threat_hunter/agents/test_agent.py:100-101 | the empty message gets the greeting with an empty echo |
| Scenarios.ExampleHelp | src/beeai_threat_hunter/agents/test_agent.py:73-99 | "HELP" is lowercased to "help" and gets the fixed help block |
| Scenarios.ExampleHelpLowercase | src/beeai_threat_hunter/agents/test_agent.py:73-99 | "help" gets the same help block as "HELP" |
| Scenarios.ExampleTestConnection | src/beeai_threat_hunter/agents/test_agent.py:73-77 | "Test Connection please" gets the connection block |
| Scenarios.ExampleMindsdb | src/beeai_threat_hunter/agents/test_agent.py:73-82 | "what's mindsdb status?" also names "status", but the earlier "mindsdb" test wins: with `MINDSDB_URL` unset the reply is the MindsDB block, reporting Missing with "Not configured" |

## Left out

- The `@server.agent(...)` registration metadata (test_agent.py:19-67): constants handed to the hosting SDK, with no logic in them.
- `serve` and the `__main__` entry (test_agent.py:106-116): start-up is the hosting SDK's `server.run`; this file only supplies `int(os.getenv("PORT", 8000))` as its port (it raises on a non-numeric value), which is start-up configuration, not part of the message handler.
- The SDK types (`Message`, `AgentMessage`, `RunContext`) and `get_message_text`: the incoming message is a plain string, and the reply is returned instead of yielded once from an async generator.
- Reading the process environment: `MINDSDB_URL` is a parameter, `None` when unset; both reads (test_agent.py:79 and 80) see this one value, since nothing runs between them and the environment is not changed while a message is handled.
- `textwrap.dedent` (test_agent.py:86): the help block is stored as the value `dedent` produces from the literal.
- Text.Lower: maps only the ASCII letters A-Z. Python's `str.lower()` also lowers other letters, and for a few it changes the length (for example 'İ').
- Text.IsSpace: the whitespace characters of `str.isspace()` are written out as a fixed list. Python strings may hold lone surrogates, which Dafny characters cannot.
