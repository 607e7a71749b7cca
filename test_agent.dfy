/**
 * The message handler of the Threat Hunter Test Agent: the incoming text is
 * stripped and lowercased, then an ordered chain of keyword tests picks one
 * of five replies. The `MINDSDB_URL` environment variable is an explicit
 * parameter, `None` when it is unset.
 */
module TestAgent {
  import opened Wrappers
  import opened Text

  // ---------------------------------------------------------------------
  // The replies
  // ---------------------------------------------------------------------

  // Each reply is its title line followed by the rest of the block.

  const ConnectionTitle: string := "✅ **Connection Test: SUCCESS**"
  const ConnectionReply: string := ConnectionTitle
    + "\n\n🔧 **System Status**: All core components are initialized\n📡 **Network**: Agent is responding to requests\n🐝 **BeeAI SDK**: Active and functional"

  const HealthTitle: string := "🏥 **System Health Check**"
  const HealthReply: string := HealthTitle
    + "\n\n🐍 **Python Runtime**: ✅ Running\n🐝 **BeeAI SDK**: ✅ Active\n⚙️ **Agent Service**: ✅ Operational\n🌐 **Network**: ✅ Accessible\n📊 **Overall Status**: 🟢 All Systems Go"

  const HelpTitle: string := "🤖 **Threat Hunter Test Agent - Available Commands**"
  /**
   * The help block after `textwrap.dedent`: the common indentation and the
   * blank lines' spaces are gone, and the block keeps the line break that
   * follows the opening quotes.
   */
  const HelpReply: string := "\n" + HelpTitle
    + "\n\n### System Testing\n• `test connection` - Verify BeeAI platform integration\n• `status` or `health` - Complete system health check\n• `mindsdb` - Test MindsDB service configuration\n\n### Information\n• `help` - Show this help message\n\n### Example Usage\nTry asking: \"test connection\" or \"check system status\"\n"

  const GreetingHead: string := "👋 **Hello!** You said: *'"
  const GreetingTail: string :=
    "'*\n\nI'm your **Threat Hunter Test Agent** for the BeeAI platform.\n\n🔍 **Available Commands**: test connection, status, mindsdb, help\n\n💡 **Tip**: Try `help` to see all available commands!"

  /** The default reply, echoing what the user said. */
  function GreetingReply(said: string): string {
    GreetingHead + said + GreetingTail
  }

  /** `bool(os.getenv('MINDSDB_URL'))`: an unset and an empty variable are both false. */
  predicate Configured(mindsdbUrl: Option<string>) {
    mindsdbUrl.Some? && mindsdbUrl.value != ""
  }

  // The fixed pieces of the MindsDB reply's f-string.
  const MindsdbTitle: string := " **MindsDB Integration Test**"
  const ConfigLabel: string := "\n\n📝 **Configuration**: "
  const UrlLabel: string := "\n🌐 **Target URL**: "
  const StatusLabel: string := "\n🔍 **Status**: "

  /** The MindsDB reply; its three status words are each chosen separately, as in the f-string. */
  function MindsdbReply(mindsdbUrl: Option<string>): string {
    var configured := Configured(mindsdbUrl);
    var shownUrl := mindsdbUrl.GetOr("Not configured");
    var statusEmoji := if configured then "✅" else "⚠️";
    statusEmoji + MindsdbTitle + ConfigLabel + (if configured then "Found" else "Missing")
    + UrlLabel + shownUrl
    + StatusLabel + (if configured then "Ready for connections" else "Needs configuration")
  }

  // ---------------------------------------------------------------------
  // The handler
  // ---------------------------------------------------------------------

  /** `get_message_text(message).strip().lower()` */
  function Normalise(msg: string): string {
    Lower(Trim(msg))
  }

  /** The handler: first match wins, and the default branch echoes the stripped text in its original case. */
  function Respond(msg: string, mindsdbUrl: Option<string>): string {
    var userMessage := Normalise(msg);
    if Contains(userMessage, "test connection") || Contains(userMessage, "connection") then
      ConnectionReply
    else if Contains(userMessage, "mindsdb") then
      MindsdbReply(mindsdbUrl)
    else if Contains(userMessage, "status") || Contains(userMessage, "health") then
      HealthReply
    else if Contains(userMessage, "help") then
      HelpReply
    else
      GreetingReply(Trim(msg))
  }

  // ---------------------------------------------------------------------
  // The dispatch as an ordered table of (keywords, branch) rules
  // ---------------------------------------------------------------------

  datatype Branch = ConnectionTest | MindsdbCheck | HealthCheck | HelpList | Greeting

  datatype Rule = Rule(keywords: seq<string>, branch: Branch)

  /** Some keyword of the list occurs in `m`. */
  predicate ContainsAny(m: string, keywords: seq<string>) {
    |keywords| > 0 && (Contains(m, keywords[0]) || ContainsAny(m, keywords[1..]))
  }

  predicate Matches(rule: Rule, m: string) {
    ContainsAny(m, rule.keywords)
  }

  /** The branch of the first rule that matches `m`, or `Greeting` when none does. */
  function FirstMatch(rules: seq<Rule>, m: string): (b: Branch)
    ensures (forall i :: 0 <= i < |rules| ==> !Matches(rules[i], m)) ==> b == Greeting
    ensures forall i :: 0 <= i < |rules| && Matches(rules[i], m) ==>
              (forall j :: 0 <= j < i ==> !Matches(rules[j], m)) ==> b == rules[i].branch
  {
    if rules == [] then Greeting
    else if Matches(rules[0], m) then rules[0].branch
    else
      assert forall i :: 1 <= i < |rules| ==> rules[i] == rules[1..][i - 1];
      FirstMatch(rules[1..], m)
  }

  /** The handler's keyword tests, in priority order. */
  const Rules: seq<Rule> := [
    Rule(["test connection", "connection"], ConnectionTest),
    Rule(["mindsdb"], MindsdbCheck),
    Rule(["status", "health"], HealthCheck),
    Rule(["help"], HelpList)
  ]

  /** The branch that answers the normalised text `m`. */
  function Route(m: string): Branch {
    FirstMatch(Rules, m)
  }

  /** The reply each branch produces. */
  function Render(b: Branch, said: string, mindsdbUrl: Option<string>): string {
    match b
    case ConnectionTest => ConnectionReply
    case MindsdbCheck => MindsdbReply(mindsdbUrl)
    case HealthCheck => HealthReply
    case HelpList => HelpReply
    case Greeting => GreetingReply(said)
  }

  // ---------------------------------------------------------------------
  // Reading replies back
  // ---------------------------------------------------------------------

  /** The branch a reply comes from, recognised by its title line. */
  function BranchOf(reply: string): Option<Branch> {
    if ConnectionTitle <= reply then Some(ConnectionTest)
    else if "✅" + MindsdbTitle <= reply || "⚠️" + MindsdbTitle <= reply then Some(MindsdbCheck)
    else if HealthTitle <= reply then Some(HealthCheck)
    else if "\n" + HelpTitle <= reply then Some(HelpList)
    else if GreetingHead <= reply then Some(Greeting)
    else None
  }

  predicate EndsWith(s: string, suffix: string) {
    |suffix| <= |s| && s[|s| - |suffix|..] == suffix
  }

  /** The text between a known head and a known tail of `s`. */
  function Between(s: string, head: string, tail: string): string
    requires head <= s && EndsWith(s, tail) && |head| + |tail| <= |s|
  {
    s[|head|..|s| - |tail|]
  }

  /** What a MindsDB reply reports: whether the service is configured and the URL it shows. */
  datatype Report = Report(configured: bool, target: string)

  const FoundHead: string := "✅" + MindsdbTitle + ConfigLabel + "Found" + UrlLabel
  const ReadyTail: string := StatusLabel + "Ready for connections"
  const MissingHead: string := "⚠️" + MindsdbTitle + ConfigLabel + "Missing" + UrlLabel
  const NeedsTail: string := StatusLabel + "Needs configuration"

  /**
   * Reads a MindsDB reply back. A reply whose emoji and configuration word
   * speak of one state and whose status line speaks of the other is no
   * report at all.
   */
  function ReadReport(reply: string): Option<Report> {
    if FoundHead <= reply && EndsWith(reply, ReadyTail) && |FoundHead| + |ReadyTail| <= |reply| then
      Some(Report(true, Between(reply, FoundHead, ReadyTail)))
    else if MissingHead <= reply && EndsWith(reply, NeedsTail) && |MissingHead| + |NeedsTail| <= |reply| then
      Some(Report(false, Between(reply, MissingHead, NeedsTail)))
    else
      None
  }

  /** The text a greeting echoes back. */
  function EchoedText(reply: string): Option<string> {
    if GreetingHead <= reply && EndsWith(reply, GreetingTail) && |GreetingHead| + |GreetingTail| <= |reply| then
      Some(Between(reply, GreetingHead, GreetingTail))
    else
      None
  }
}
