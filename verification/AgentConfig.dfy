/**
  An agent's configuration file and what it says of the key-session entry: Claude Code's file is read
  as JSON, Codex lists its servers through its own command. How a file's bytes read, and what the
  command lists for it, are parameters.
*/
module AgentConfig {
  import opened Common
  import opened SkillInstall

  /** A configuration file: absent, not to be touched, or its bytes. */
  datatype ConfigFile = Absent | Unsafe | Content(bytes: string)

  /** `bytes.Equal` on what was read: an absent file reads as no bytes. */
  function BytesOf(f: ConfigFile): string {
    if f.Content? then f.bytes else ""
  }

  datatype Json = Null | Bool(b: bool) | Number(text: string) | Text(s: string) | List(items: seq<Json>) |
                  Object(fields: map<string, Json>)

  datatype Server = Server(name: string, enabled: bool, transport: string, command: string, arguments: seq<string>,
                           variables: seq<string>, directory: string)

  datatype Host =
    | Claude(parse: string -> Option<Json>)
    | Codex(list: ConfigFile -> Option<seq<Server>>)

  const SERVER_NAME := "key-session"
  const SERVERS := "mcpServers"

  // ---------------------------------------------------------------------------- Claude Code

  /** `stringSlice`: the strings of a list, or nothing when it is not one of strings. */
  function Strings(v: Option<Json>): seq<string> {
    if v.Some? && v.value.List? && (forall i :: 0 <= i < |v.value.items| ==> v.value.items[i].Text?)
    then seq(|v.value.items|, i requires 0 <= i < |v.value.items| => v.value.items[i].s)
    else []
  }

  function Field(fields: map<string, Json>, name: string): Option<Json> {
    if name in fields then Some(fields[name]) else None
  }

  predicate EmptyEnvironment(v: Option<Json>) {
    v.None? || v.value.Null? || (v.value.Object? && v.value.fields == map[])
  }

  predicate ExactJson(helper: string, v: Json) {
    && v.Object?
    && Field(v.fields, "type") == Some(Text("stdio")) && Field(v.fields, "command") == Some(Text(helper))
    && Strings(Field(v.fields, "args")) == ["mcp"] && EmptyEnvironment(Field(v.fields, "env"))
  }

  /** `inspectClaudeMCP`, branch by branch. */
  function ClaudeStanding(parse: string -> Option<Json>, helper: string, runs: bool, file: ConfigFile): Standing {
    if !runs then Unavailable
    else
      match file
      case Unsafe => Refused
      case Absent => Missing
      case Content(bytes) =>
        var root := parse(bytes);
        if root.None? || !(root.value.Object? || root.value.Null?) then Refused
        else
          var fields := if root.value.Object? then root.value.fields else map[];
          if SERVERS !in fields then Missing
          else if !fields[SERVERS].Object? then Refused
          else if SERVER_NAME !in fields[SERVERS].fields then Missing
          else if ExactJson(helper, fields[SERVERS].fields[SERVER_NAME]) then Connected
          else NeedsRepair
  }

  // ---------------------------------------------------------------------------- Codex

  predicate ExactServer(helper: string, s: Server) {
    && s.enabled && s.transport == "stdio" && s.command == helper && s.arguments == ["mcp"]
    && s.variables == [] && s.directory == ""
  }

  /** The first server listed under the name decides. */
  function FirstNamed(servers: seq<Server>): Option<Server> {
    if servers == [] then None
    else if servers[0].name == SERVER_NAME then Some(servers[0])
    else FirstNamed(servers[1..])
  }

  function ServersStanding(servers: seq<Server>, helper: string): Standing {
    match FirstNamed(servers)
    case None => Missing
    case Some(s) => if ExactServer(helper, s) then Connected else NeedsRepair
  }

  /** `equalStrings`, with its loop. */
  method EqualStrings(left: seq<string>, right: seq<string>) returns (equal: bool)
    ensures equal == (left == right)
  {
    if |left| != |right| {
      return false;
    }
    for index := 0 to |left|
      invariant left[..index] == right[..index]
    {
      if left[index] != right[index] {
        return false;
      }
    }
    assert left == left[..|left|] && right == right[..|left|];
    return true;
  }

  /** The loop of `inspectCodexMCP` over the servers listed. */
  method InspectServers(servers: seq<Server>, helper: string) returns (standing: Standing)
    ensures standing == ServersStanding(servers, helper)
  {
    for i := 0 to |servers|
      invariant FirstNamed(servers) == FirstNamed(servers[i..])
    {
      var server := servers[i];
      if server.name != SERVER_NAME {
        continue;
      }
      var exact := EqualStrings(server.arguments, ["mcp"]);
      if server.enabled && server.transport == "stdio" && server.command == helper && exact
         && |server.variables| == 0 && server.directory == "" {
        return Connected;
      }
      return NeedsRepair;
    }
    return Missing;
  }

  /** `inspectCodexMCP`. */
  function CodexStanding(list: ConfigFile -> Option<seq<Server>>, helper: string, runs: bool,
                         file: ConfigFile): Standing
  {
    if !runs then Unavailable
    else if file.Unsafe? then Refused
    else if list(file).None? then Refused
    else ServersStanding(list(file).value, helper)
  }

  function McpStanding(host: Host, helper: string, runs: bool, file: ConfigFile): Standing {
    match host
    case Claude(parse) => ClaudeStanding(parse, helper, runs, file)
    case Codex(list) => CodexStanding(list, helper, runs, file)
  }

  // ---------------------------------------------------------------------------- a file as entries

  function Others(servers: seq<Server>): seq<Server> {
    if servers == [] then []
    else (if servers[0].name == SERVER_NAME then [] else [servers[0]]) + Others(servers[1..])
  }

  /** The entries that are not key-session's, and all else a configuration says. */
  datatype Foreign = JsonForeign(rest: map<string, Json>, servers: map<string, Json>) | ListForeign(list: seq<Server>)

  /** A configuration as entries: the foreign ones, and whether key-session's is there and exact. */
  datatype Entries = Entries(foreign: Foreign, own: Option<bool>)

  function JsonEntries(root: Json, helper: string): Option<Entries> {
    var fields := if root.Object? then root.fields else map[];
    var servers := if SERVERS in fields then fields[SERVERS] else Object(map[]);
    if !(root.Object? || root.Null?) || !servers.Object? then None
    else
      var own := if SERVER_NAME in servers.fields then Some(ExactJson(helper, servers.fields[SERVER_NAME])) else None;
      Some(Entries(JsonForeign(fields - {SERVERS}, servers.fields - {SERVER_NAME}), own))
  }

  function ListEntries(servers: seq<Server>, helper: string): Entries {
    var first := FirstNamed(servers);
    Entries(ListForeign(Others(servers)), if first.None? then None else Some(ExactServer(helper, first.value)))
  }

  function EntriesOf(host: Host, helper: string, file: ConfigFile): Option<Entries> {
    if file.Unsafe? then None
    else
      match host
      case Claude(parse) =>
        if file.Absent? then JsonEntries(Null, helper)
        else
          var root := parse(file.bytes);
          if root.None? then None else JsonEntries(root.value, helper)
      case Codex(list) =>
        var servers := list(file);
        if servers.None? then None else Some(ListEntries(servers.value, helper))
  }

  /** Both inspections say the same thing of the entries. */
  lemma StandingIsOfTheEntries(host: Host, helper: string, runs: bool, file: ConfigFile)
    ensures McpStanding(host, helper, runs, file) ==
            if !runs then Unavailable
            else
              match EntriesOf(host, helper, file)
              case None => Refused
              case Some(e) => if e.own.None? then Missing else if e.own.value then Connected else NeedsRepair
  {
  }

  // ---------------------------------------------------------------------------- the two states combined

  /** `combined`: one standing for a host, and whether a repair may start. */
  function Combined(mcp: Standing, skill: Standing): Standing {
    if mcp == Refused || skill == Refused then Refused
    else if mcp == Unavailable || skill == Unavailable then Unavailable
    else if mcp == NeedsRepair || skill == NeedsRepair then NeedsRepair
    else if mcp == Missing || skill == Missing then Missing
    else Connected
  }

  predicate CanRepair(s: Standing) { s == Missing || s == NeedsRepair }

  function Severity(s: Standing): nat {
    match s
    case Connected => 0
    case Missing => 1
    case NeedsRepair => 2
    case Unavailable => 3
    case Refused => 4
  }

  /** The combined standing is the worse one; a repair may start when both can be seen and one is not right. */
  lemma CombinedIsTheWorse(mcp: Standing, skill: Standing)
    ensures Severity(Combined(mcp, skill)) == if Severity(mcp) > Severity(skill) then Severity(mcp) else Severity(skill)
    ensures Combined(mcp, skill) in {mcp, skill}
    ensures CanRepair(Combined(mcp, skill)) <==>
            && mcp !in {Refused, Unavailable} && skill !in {Refused, Unavailable}
            && !(mcp == Connected && skill == Connected)
  {
  }

  // ---------------------------------------------------------------------------- what is written is what is looked for

  /** The entry `claude mcp add` writes is taken as it should be, and an entry that says anything else is not. */
  lemma JsonIsExactly(helper: string, v: Json)
    ensures ExactJson(helper, v) <==>
            && v.Object? && {"type", "command", "args"} <= v.fields.Keys
            && v.fields["type"] == Text("stdio") && v.fields["command"] == Text(helper)
            && v.fields["args"] == List([Text("mcp")])
            && ("env" in v.fields ==> v.fields["env"] in {Null, Object(map[])})
  {
    if v.Object? && "args" in v.fields && Strings(Some(v.fields["args"])) == ["mcp"] {
      var arguments := v.fields["args"];
      assert |Strings(Some(arguments))| == 1 && Strings(Some(arguments))[0] == "mcp";
      assert arguments.List? && arguments.items[0] == Text("mcp");
      assert arguments.items == [Text("mcp")];
    }
    assert Strings(Some(List([Text("mcp")]))) == ["mcp"];
  }

  lemma {:induction false} FirstIsFirst(servers: seq<Server>)
    ensures FirstNamed(servers) == None <==> forall s :: s in servers ==> s.name != "key-session"
    ensures FirstNamed(servers).Some? ==>
              exists i :: 0 <= i < |servers| && servers[i] == FirstNamed(servers).value &&
                          servers[i].name == "key-session" &&
                          forall k :: 0 <= k < i ==> servers[k].name != "key-session"
  {
    if servers != [] && servers[0].name != "key-session" {
      FirstIsFirst(servers[1..]);
      if FirstNamed(servers).Some? {
        var i :| 0 <= i < |servers| - 1 && servers[1..][i] == FirstNamed(servers).value &&
                 servers[1..][i].name == "key-session" &&
                 forall k :: 0 <= k < i ==> servers[1..][k].name != "key-session";
        assert servers[i + 1] == servers[1..][i];
        forall k | 0 <= k < i + 1 ensures servers[k].name != "key-session" {
          assert k > 0 ==> servers[k] == servers[1..][k - 1];
        }
      }
      assert servers == [servers[0]] + servers[1..];
    }
  }

  /** Codex's list is in order exactly when its first server of the name is the one `codex mcp add` writes. */
  lemma ServersAreExactly(servers: seq<Server>, helper: string)
    ensures ServersStanding(servers, helper) == Missing <==> forall s :: s in servers ==> s.name != "key-session"
    ensures ServersStanding(servers, helper) == Connected <==>
            exists i :: 0 <= i < |servers| &&
              servers[i] == Server("key-session", true, "stdio", helper, ["mcp"], [], "") &&
              forall k :: 0 <= k < i ==> servers[k].name != "key-session"
    ensures ServersStanding(servers, helper) in {Missing, Connected, NeedsRepair}
  {
    FirstIsFirst(servers);
    var exact := Server("key-session", true, "stdio", helper, ["mcp"], [], "");
    if i :| 0 <= i < |servers| && servers[i] == exact && forall k :: 0 <= k < i ==> servers[k].name != "key-session" {
      assert servers[i] in servers;
      var j :| 0 <= j < |servers| && servers[j] == FirstNamed(servers).value && servers[j].name == "key-session" &&
               forall k :: 0 <= k < j ==> servers[k].name != "key-session";
      assert i == j;
    }
  }
}
