/**
  Repairing an agent's connection: the skill is installed, and the MCP entry replaced through the
  agent's own command, with the file put back when adding fails. Other programs may write the
  configuration between any two steps.
*/
module AgentRepair {
  import opened Common
  import opened SkillTree
  import opened SkillInstall
  import opened AgentConfig

  // ---------------------------------------------------------------------------- the oracles

  /** A run of the agent's command: whether it exited with success, and the file it left. */
  datatype Reply = Reply(ok: bool, file: ConfigFile)

  datatype Cli = Cli(remove: ConfigFile -> Reply, add: ConfigFile -> Reply)

  /** What other programs write in each gap between two steps, if anything. */
  datatype Meddling = Meddling(first: Option<ConfigFile>, second: Option<ConfigFile>, third: Option<ConfigFile>,
                               fourth: Option<ConfigFile>, fifth: Option<ConfigFile>, last: Option<ConfigFile>)

  const QUIET := Meddling(None, None, None, None, None, None)

  function After(write: Option<ConfigFile>, file: ConfigFile): ConfigFile {
    if write.Some? then write.value else file
  }

  datatype Command = Remove | Add

  datatype McpError = NotSafe | Changed | RemoveRefused | BecameUnsafe | Untouched | Restored

  // ---------------------------------------------------------------------------- restoring the file

  /** The file and success of `restorePrivateFile`; `late` is written after its comparison. */
  function Restore(current: ConfigFile, expected: ConfigFile, payload: ConfigFile, late: Option<ConfigFile>,
                   works: bool):
    (ConfigFile, bool)
  {
    var now := After(late, current);
    if current.Unsafe? || BytesOf(current) != BytesOf(expected) then (now, false)
    else if payload.Absent? then (if works || now.Absent? then (Absent, true) else (now, false))
    else if works then (payload, true)
    else (now, false)
  }

  // ---------------------------------------------------------------------------- the transaction

  /** What came of it: the file, the error if any, the commands run, and what a failed add left to put right. */
  datatype Outcome = Outcome(file: ConfigFile, error: Option<McpError>, commands: seq<Command>)

  /** What is there once both reads agreed and, for an outdated entry, it was removed. */
  function Removed(original: ConfigFile, standing: Standing, cli: Cli, m: Meddling): ConfigFile {
    var before := After(m.second, After(m.first, original));
    if standing == NeedsRepair then cli.remove(before).file else before
  }

  /** The file the transaction takes for its own before adding: read again after a removal. */
  function Baseline(original: ConfigFile, standing: Standing, cli: Cli, m: Meddling): ConfigFile {
    if standing == NeedsRepair then After(m.third, Removed(original, standing, cli, m)) else original
  }

  /** What is there when adding has failed. */
  function Left(original: ConfigFile, standing: Standing, cli: Cli, m: Meddling): ConfigFile {
    var base := if standing == NeedsRepair then Baseline(original, standing, cli, m)
                else Removed(original, standing, cli, m);
    After(m.fifth, cli.add(After(m.fourth, base)).file)
  }

  /** `repairCodexMCP` and `repairClaudeMCP`, which differ only in the commands' words. */
  function RepairMcp(original: ConfigFile, standing: Standing, cli: Cli, m: Meddling, works: bool): Outcome {
    var current := After(m.first, original);
    if original.Unsafe? then Outcome(current, Some(NotSafe), [])
    else if current.Unsafe? || BytesOf(current) != BytesOf(original) then Outcome(current, Some(Changed), [])
    else
      var before := After(m.second, current);
      if standing == NeedsRepair && !cli.remove(before).ok then
        Outcome(cli.remove(before).file, Some(RemoveRefused), [Remove])
      else
        var baseline := if standing == NeedsRepair then After(m.third, cli.remove(before).file) else original;
        var run := if standing == NeedsRepair then [Remove] else [];
        if baseline.Unsafe? then Outcome(baseline, Some(BecameUnsafe), run)
        else
          var reply := cli.add(After(m.fourth, if standing == NeedsRepair then baseline else before));
          if reply.ok then Outcome(reply.file, None, run + [Add])
          else
            var (file, restored) := Restore(After(m.fifth, reply.file), baseline, original, m.last, works);
            Outcome(file, Some(if restored then Restored else Untouched), run + [Add])
  }

  /** An agent's files, changed step by step. */
  class Agent {
    var config: ConfigFile
    const skills: SkillFiles
    /** The mutating commands run so far. */
    var commands: seq<Command>

    constructor (config: ConfigFile, skills: SkillFiles)
      ensures this.config == config && this.skills == skills && commands == []
    {
      this.config, this.skills, this.commands := config, skills, [];
    }

    method RestorePrivateFile(expected: ConfigFile, payload: ConfigFile, late: Option<ConfigFile>, works: bool)
      returns (restored: bool)
      modifies this`config
      ensures (config, restored) == Restore(old(config), expected, payload, late, works)
    {
      var current := config;
      config := After(late, config);
      if current.Unsafe? || BytesOf(current) != BytesOf(expected) {
        return false;
      }
      if payload.Absent? {
        if !works && !config.Absent? {
          return false;
        }
        config := Absent;
        return true;
      }
      if !works {
        return false;
      }
      config := payload;
      return true;
    }

    method RepairMCP(standing: Standing, cli: Cli, m: Meddling, works: bool) returns (error: Option<McpError>)
      modifies this`config, this`commands
      ensures var r := RepairMcp(old(config), standing, cli, m, works);
              config == r.file && error == r.error && commands == old(commands) + r.commands
    {
      var original := config;
      config := After(m.first, config);
      if original.Unsafe? {
        return Some(NotSafe);
      }
      var current := config;
      if current.Unsafe? || BytesOf(current) != BytesOf(original) {
        return Some(Changed);
      }
      config := After(m.second, config);
      var rollbackExpected := original;
      if standing == NeedsRepair {
        var removed := cli.remove(config);
        config, commands := removed.file, commands + [Remove];
        if !removed.ok {
          return Some(RemoveRefused);
        }
        config := After(m.third, config);
        rollbackExpected := config;
        if rollbackExpected.Unsafe? {
          return Some(BecameUnsafe);
        }
      }
      config := After(m.fourth, config);
      var added := cli.add(config);
      config, commands := added.file, commands + [Add];
      if !added.ok {
        config := After(m.fifth, config);
        var restored := RestorePrivateFile(rollbackExpected, original, m.last, works);
        return Some(if restored then Restored else Untouched);
      }
      return None;
    }

    /** `repairCodex` and `repairClaude`, from one inspection to the next. */
    method Repair(w: Setup, cli: Cli, o: Oracles, before: Reading, installing: Reading, after: Reading)
      returns (report: Report)
      requires Walks(before, skills.source, skills.destination) && before.broken == o.brokenBefore
      requires Walks(installing, skills.source, skills.destination)
      requires Walks(after, skills.source, Install(skills.source, skills.destination, o.fate).destination)
      requires after.broken == o.brokenAfter
      modifies this`config, this`commands, skills`destination
      ensures var r := Repaired(w, cli, old(config), skills.source, old(skills.destination), o);
              && config == r.config && skills.destination == r.destination && commands == old(commands) + r.commands
              && report == r.report
    {
      if !w.installed {
        return UNAVAILABLE;
      }
      var skill := InspectSkill(skills.source, skills.destination, before);
      var seen := Connection(McpStanding(w.host, w.helper, w.runs, config), skill);
      if !CanRepair(seen.state) {
        return seen;
      }
      var ok, _ := skills.InstallSkill(installing, o.fate);
      if !ok {
        return REFUSED;
      }
      if seen.mcp != Connected {
        var error := RepairMCP(seen.mcp, cli, o.meddling, o.works);
        if error.Some? {
          return REFUSED;
        }
      }
      skill := InspectSkill(skills.source, skills.destination, after);
      report := Connection(McpStanding(w.host, w.helper, w.runs, config), skill);
    }
  }

  // ---------------------------------------------------------------------------- a whole repair

  /** The host, the helper to be called and whether it can run, and whether the agent is installed. */
  datatype Setup = Setup(host: Host, helper: string, runs: bool, installed: bool)

  datatype Report = Report(state: Standing, mcp: Standing, skill: Standing)

  const UNAVAILABLE := Report(Unavailable, Unavailable, Unavailable)
  const REFUSED := Report(Refused, Refused, Refused)

  function Connection(mcp: Standing, skill: Standing): Report {
    Report(Combined(mcp, skill), mcp, skill)
  }

  /** `inspectCodex` and `inspectClaude`. */
  ghost function Inspect(w: Setup, config: ConfigFile, source: Option<Tree>, destination: Option<Tree>,
                         broken: set<string>):
    Report
  {
    if !w.installed then UNAVAILABLE
    else Connection(McpStanding(w.host, w.helper, w.runs, config), SkillSeen(source, destination, broken))
  }

  /** How the outside answers during one repair. */
  datatype Oracles = Oracles(brokenBefore: set<string>, fate: Fate, meddling: Meddling, works: bool,
                             brokenAfter: set<string>)

  datatype Repair = Repair(config: ConfigFile, destination: Option<Tree>, commands: seq<Command>, report: Report,
                           succeeded: bool)

  /** A whole repair, said of the files before and after; it `succeeded` if it met no error. */
  ghost function Repaired(w: Setup, cli: Cli, config: ConfigFile, source: Option<Tree>, destination: Option<Tree>,
                          o: Oracles):
    Repair
  {
    var seen := Inspect(w, config, source, destination, o.brokenBefore);
    if !CanRepair(seen.state) then Repair(config, destination, [], seen, false)
    else
      var skill := Install(source, destination, o.fate);
      if !skill.ok then Repair(config, skill.destination, [], REFUSED, false)
      else
        var r := if seen.mcp == Connected then Outcome(config, None, [])
                 else RepairMcp(config, seen.mcp, cli, o.meddling, o.works);
        if r.error.Some? then Repair(r.file, skill.destination, r.commands, REFUSED, false)
        else
          var report := Inspect(w, r.file, source, skill.destination, o.brokenAfter);
          Repair(r.file, skill.destination, r.commands, report, true)
  }

  // ---------------------------------------------------------------------------- when the file is put back

  /** What adding is given, and what it leaves. */
  function BeforeAdd(original: ConfigFile, standing: Standing, cli: Cli, m: Meddling): ConfigFile {
    After(m.fourth, Before(original, standing, cli, m, Fourth))
  }

  /** The transaction gets as far as adding, and adding fails. */
  predicate AddFails(original: ConfigFile, standing: Standing, cli: Cli, m: Meddling) {
    var current := After(m.first, original);
    && !original.Unsafe? && !current.Unsafe? && BytesOf(current) == BytesOf(original)
    && (standing == NeedsRepair ==>
          cli.remove(After(m.second, current)).ok && !Baseline(original, standing, cli, m).Unsafe?)
    && !cli.add(BeforeAdd(original, standing, cli, m)).ok
  }

  /** And the file then has the bytes read before adding, and writing it works. */
  predicate RollsBack(original: ConfigFile, standing: Standing, cli: Cli, m: Meddling, works: bool) {
    var left := Left(original, standing, cli, m);
    && AddFails(original, standing, cli, m)
    && !left.Unsafe? && BytesOf(left) == BytesOf(Baseline(original, standing, cli, m))
    && (works || (original.Absent? && After(m.last, left).Absent?))
  }

  /**
    The two messages of a failed add are given exactly then. Restored means the original is back, and
    untouched that nothing was written, whoever wrote last: another program or the command that failed.
  */
  lemma FailedAddPutsBack(original: ConfigFile, standing: Standing, cli: Cli, m: Meddling, works: bool)
    ensures var r := RepairMcp(original, standing, cli, m, works);
            && (r.error == Some(Restored) <==> RollsBack(original, standing, cli, m, works))
            && (r.error == Some(Untouched) <==>
                  AddFails(original, standing, cli, m) && !RollsBack(original, standing, cli, m, works))
            && (AddFails(original, standing, cli, m) ==>
                  r.file == if RollsBack(original, standing, cli, m, works) then original
                            else After(m.last, Left(original, standing, cli, m)))
  {
    assert standing != NeedsRepair ==> Baseline(original, standing, cli, m) == original;
  }

  // ---------------------------------------------------------------------------- whose changes are lost

  /** The moments at which other programs may write, in order; the third comes only after a removal. */
  datatype Gap = First | Second | Third | Fourth | Fifth | Last

  function Written(m: Meddling, g: Gap): Option<ConfigFile> {
    match g
    case First => m.first
    case Second => m.second
    case Third => m.third
    case Fourth => m.fourth
    case Fifth => m.fifth
    case Last => m.last
  }

  /** What is there just before that moment, when adding fails. */
  function Before(original: ConfigFile, standing: Standing, cli: Cli, m: Meddling, g: Gap): ConfigFile {
    match g
    case First => original
    case Second => After(m.first, original)
    case Third => Removed(original, standing, cli, m)
    case Fourth =>
      if standing == NeedsRepair then Baseline(original, standing, cli, m) else Removed(original, standing, cli, m)
    case Fifth =>
      var base := if standing == NeedsRepair then Baseline(original, standing, cli, m)
                  else Removed(original, standing, cli, m);
      cli.add(After(m.fourth, base)).file
    case Last => Left(original, standing, cli, m)
  }

  /** Another program's write there changed the file, and the call ends with the original in place of it. */
  predicate Lost(original: ConfigFile, standing: Standing, cli: Cli, m: Meddling, works: bool, g: Gap) {
    var r, write := RepairMcp(original, standing, cli, m, works), Written(m, g);
    && (g == Third ==> standing == NeedsRepair)
    && write.Some? && write.value != Before(original, standing, cli, m, g)
    && r.error == Some(Restored) && write.value != r.file
  }

  /** The write is of neither file. */
  predicate Other(write: Option<ConfigFile>, f: ConfigFile, g: ConfigFile) {
    write.Some? && write.value != f && write.value != g
  }

  /** An empty file written where there was none, or a file removed that was empty: the bytes are the same. */
  predicate AbsentForEmpty(f: ConfigFile, write: Option<ConfigFile>) {
    (f == Absent && write == Some(Content(""))) || (f == Content("") && write == Some(Absent))
  }

  /** A change before the second read is lost when it is of absent against empty, and the file is put back. */
  lemma FirstLostExactly(original: ConfigFile, standing: Standing, cli: Cli, m: Meddling, works: bool)
    ensures Lost(original, standing, cli, m, works, First) <==>
            RollsBack(original, standing, cli, m, works) && AbsentForEmpty(original, m.first)
  {
    FailedAddPutsBack(original, standing, cli, m, works);
  }

  /** A change between the comparison of the two reads and the reading of the baseline is lost with any bytes. */
  lemma EarlyLostExactly(original: ConfigFile, standing: Standing, cli: Cli, m: Meddling, works: bool)
    ensures Lost(original, standing, cli, m, works, Second) <==>
            RollsBack(original, standing, cli, m, works) && Other(m.second, original, After(m.first, original))
    ensures Lost(original, standing, cli, m, works, Third) <==>
            && RollsBack(original, standing, cli, m, works) && standing == NeedsRepair
            && Other(m.third, original, Removed(original, standing, cli, m))
  {
    FailedAddPutsBack(original, standing, cli, m, works);
  }

  /**
    A change before adding is lost with any bytes when the failed command puts the baseline's back; one
    after adding, only when it has the baseline's bytes, which for an entry that was missing means absent
    against empty.
  */
  lemma LateLostExactly(original: ConfigFile, standing: Standing, cli: Cli, m: Meddling, works: bool)
    ensures Lost(original, standing, cli, m, works, Fourth) <==>
            && RollsBack(original, standing, cli, m, works)
            && Other(m.fourth, original, Before(original, standing, cli, m, Fourth))
    ensures Lost(original, standing, cli, m, works, Fifth) <==>
            && RollsBack(original, standing, cli, m, works)
            && m.fifth.Some? && m.fifth.value != cli.add(BeforeAdd(original, standing, cli, m)).file
            && (if standing == NeedsRepair
                then m.fifth.value != original &&
                     BytesOf(m.fifth.value) == BytesOf(Baseline(original, standing, cli, m))
                else AbsentForEmpty(original, m.fifth))
  {
    FailedAddPutsBack(original, standing, cli, m, works);
  }

  /** A change between the last comparison and the writing is lost with any bytes. */
  lemma LastLostExactly(original: ConfigFile, standing: Standing, cli: Cli, m: Meddling, works: bool)
    ensures Lost(original, standing, cli, m, works, Last) <==>
            RollsBack(original, standing, cli, m, works) && Other(m.last, original, Left(original, standing, cli, m))
  {
    FailedAddPutsBack(original, standing, cli, m, works);
  }

  /** A failing command leaves the file as it found it. */
  ghost predicate Tidy(cli: Cli) {
    forall f :: !cli.add(f).ok ==> cli.add(f).file == f
  }

  /** What other programs have left, when adding an entry that was missing has failed. */
  function Theirs(original: ConfigFile, m: Meddling): ConfigFile {
    After(m.fifth, After(m.fourth, After(m.second, After(m.first, original))))
  }

  /**
    For an entry that was missing and a tidy command: the latest change others made before the last
    comparison is lost exactly when it is of absent against empty, and one made later whenever the bytes
    compared are still the original's. So every other change stays, as the security notes say.
  */
  lemma MissingLosesExactly(original: ConfigFile, cli: Cli, m: Meddling, works: bool)
    requires Tidy(cli)
    ensures var r, theirs := RepairMcp(original, Missing, cli, m, works), Theirs(original, m);
            AddFails(original, Missing, cli, m) ==>
              (r.file != After(m.last, theirs) <==>
               && works && !theirs.Unsafe? && BytesOf(theirs) == BytesOf(original)
               && (if m.last.Some? then m.last.value != original else AbsentForEmpty(original, Some(theirs))))
  {
    FailedAddPutsBack(original, Missing, cli, m, works);
  }

  /** A file written between the comparison and the renaming is lost, and so is one before the second read. */
  lemma ChangesCanBeLost()
    ensures var cli := Cli(f => Reply(true, f), f => Reply(false, f));
            var late := QUIET.(last := Some(Content("theirs")));
            var early := QUIET.(third := Some(Content("theirs")));
            var restored := Outcome(Content("ours"), Some(Restored), [Remove, Add]);
            && RepairMcp(Content("ours"), NeedsRepair, cli, late, true) == restored
            && RepairMcp(Content("ours"), NeedsRepair, cli, early, true) == restored
            && Lost(Content("ours"), NeedsRepair, cli, late, true, Last)
            && Lost(Content("ours"), NeedsRepair, cli, early, true, Third)
  {
  }

  /** A new empty file of another program is removed, for its bytes are those of the file that was missing. */
  lemma AnEmptyFileCanBeLost()
    ensures var cli := Cli(f => Reply(true, f), f => Reply(false, f));
            var m := QUIET.(fifth := Some(Content("")));
            && RepairMcp(Absent, Missing, cli, m, true) == Outcome(Absent, Some(Restored), [Add])
            && Lost(Absent, Missing, cli, m, true, Fifth)
  {
  }

  // ---------------------------------------------------------------------------- what a failed add leaves

  /** Another program wrote this file during the transaction. */
  predicate TheyWrote(standing: Standing, m: Meddling, file: ConfigFile) {
    || m.first == Some(file) || m.second == Some(file) || (standing == NeedsRepair && m.third == Some(file))
    || m.fourth == Some(file) || m.fifth == Some(file) || m.last == Some(file)
  }

  /** After a failed add the file is the original, or as another program wrote it. */
  predicate OriginalOrTheirs(original: ConfigFile, standing: Standing, cli: Cli, m: Meddling, works: bool) {
    var r := RepairMcp(original, standing, cli, m, works);
    r.error in {Some(Restored), Some(Untouched)} ==> r.file == original || TheyWrote(standing, m, r.file)
  }

  /** That is so unless the file is not put back, nobody wrote after adding, and adding left bytes of its own. */
  lemma OriginalOrTheirsExactly(original: ConfigFile, standing: Standing, cli: Cli, m: Meddling, works: bool)
    ensures OriginalOrTheirs(original, standing, cli, m, works) <==>
            var left := cli.add(BeforeAdd(original, standing, cli, m)).file;
            || !AddFails(original, standing, cli, m) || RollsBack(original, standing, cli, m, works)
            || m.fifth.Some? || m.last.Some?
            || left == original || TheyWrote(standing, m, left)
  {
    FailedAddPutsBack(original, standing, cli, m, works);
  }

  /** With a tidy command it is always so for an entry that was missing. */
  lemma TidyLeavesNothing(original: ConfigFile, cli: Cli, m: Meddling, works: bool)
    requires Tidy(cli)
    ensures OriginalOrTheirs(original, Missing, cli, m, works)
  {
    OriginalOrTheirsExactly(original, Missing, cli, m, works);
  }

  /** Undisturbed, a command that fails halfway leaves neither. */
  lemma LeftoversCanStay()
    ensures var cli := Cli(f => Reply(true, Content("gone")), f => Reply(false, Content("partial")));
            && RepairMcp(Content("ours"), NeedsRepair, cli, QUIET, true) ==
               Outcome(Content("partial"), Some(Untouched), [Remove, Add])
            && !OriginalOrTheirs(Content("ours"), NeedsRepair, cli, QUIET, true)
  {
  }

  /** The same transaction with nobody else writing. */
  function Own(original: ConfigFile, standing: Standing, cli: Cli): ConfigFile {
    Removed(original, standing, cli, QUIET)
  }

  // ---------------------------------------------------------------------------- with an agent that keeps to its entry

  /** The agent's commands, when they succeed on a file that reads, change key-session's entry only. */
  ghost predicate Lawful(w: Setup, cli: Cli) {
    && (forall f {:trigger cli.remove(f)} :: EntriesOf(w.host, w.helper, f).Some? && cli.remove(f).ok ==>
          EntriesOf(w.host, w.helper, cli.remove(f).file) == Some(EntriesOf(w.host, w.helper, f).value.(own := None)))
    && (forall f {:trigger cli.add(f)} ::
          EntriesOf(w.host, w.helper, f).Some? && EntriesOf(w.host, w.helper, f).value.own == None && cli.add(f).ok ==>
            EntriesOf(w.host, w.helper, cli.add(f).file) ==
            Some(EntriesOf(w.host, w.helper, f).value.(own := Some(true))))
  }

  /** With nobody else writing, the entry is replaced exactly when the commands succeed, and alone. */
  lemma QuietTransaction(w: Setup, cli: Cli, config: ConfigFile, standing: Standing, works: bool)
    requires Lawful(w, cli) && standing == McpStanding(w.host, w.helper, w.runs, config) && CanRepair(standing)
    ensures var r := RepairMcp(config, standing, cli, QUIET, works);
            var added := cli.add(Own(config, standing, cli));
            && (r.error == None <==> (standing == NeedsRepair ==> cli.remove(config).ok) && added.ok)
            && (r.error == None ==>
                  && r.file == added.file
                  && EntriesOf(w.host, w.helper, r.file) ==
                     Some(EntriesOf(w.host, w.helper, config).value.(own := Some(true))))
  {
    StandingIsOfTheEntries(w.host, w.helper, w.runs, config);
    var own := Own(config, standing, cli);
    if standing == NeedsRepair && cli.remove(config).ok {
      assert own == cli.remove(config).file;
    }
  }

  /** The answers of one repair in which nobody else writes and every file of the skill can be read. */
  ghost predicate Calm(o: Oracles) {
    o.meddling == QUIET && o.brokenBefore == {} && o.brokenAfter == {}
  }

  /**
    A repair that meets no error ends connected, has changed no foreign entry and installed the very
    source; and whatever the next one is answered, it changes nothing.
  */
  lemma RepairSettles(w: Setup, cli: Cli, config: ConfigFile, source: Option<Tree>, destination: Option<Tree>,
                      o: Oracles,
                      next: Oracles)
    requires Lawful(w, cli) && Calm(o) && next.brokenBefore == {}
    requires Repaired(w, cli, config, source, destination, o).succeeded
    ensures var r := Repaired(w, cli, config, source, destination, o);
            && r.report == Report(Connected, Connected, Connected) && r.destination == source
            && EntriesOf(w.host, w.helper, r.config).Some? && EntriesOf(w.host, w.helper, config).Some?
            && EntriesOf(w.host, w.helper, r.config).value.foreign == EntriesOf(w.host, w.helper, config).value.foreign
            && Repaired(w, cli, r.config, source, r.destination, next) ==
               Repair(r.config, r.destination, [], r.report, false)
  {
    var seen := Inspect(w, config, source, destination, {});
    CombinedIsTheWorse(seen.mcp, seen.skill);
    InstallConnects(source, destination, o.fate);
    StandingIsOfTheEntries(w.host, w.helper, w.runs, config);
    var r := Repaired(w, cli, config, source, destination, o);
    StandingIsOfTheEntries(w.host, w.helper, w.runs, r.config);
    if seen.mcp != Connected {
      QuietTransaction(w, cli, config, seen.mcp, o.works);
    }
  }

  /** Nothing is changed, and no command run, unless both parts could be seen and one was not right. */
  lemma MutatesOnlyToRepair(w: Setup, cli: Cli, config: ConfigFile, source: Option<Tree>, destination: Option<Tree>,
                            o: Oracles)
    ensures var r := Repaired(w, cli, config, source, destination, o);
            var seen := Inspect(w, config, source, destination, o.brokenBefore);
            && (r.destination != destination || r.commands != [] || r.config != config ==>
                  && seen.mcp in {Connected, Missing, NeedsRepair} && seen.skill in {Connected, Missing, NeedsRepair}
                  && !(seen.mcp == Connected && seen.skill == Connected))
            && (r.commands != [] || r.config != config ==> seen.mcp != Connected && r.destination == source)
            && (Remove in r.commands ==> seen.mcp == NeedsRepair)
  {
    var seen := Inspect(w, config, source, destination, o.brokenBefore);
    if w.installed {
      CombinedIsTheWorse(seen.mcp, seen.skill);
    }
    if Install(source, destination, o.fate).ok {
      InstallConnects(source, destination, o.fate);
    }
  }

  /** Undisturbed, a repair succeeds exactly when it is due, the skill can be installed and the commands succeed. */
  lemma RepairSucceedsExactly(w: Setup, cli: Cli, config: ConfigFile, source: Option<Tree>, destination: Option<Tree>,
                              o: Oracles)
    requires o.meddling == QUIET
    ensures var seen := Inspect(w, config, source, destination, o.brokenBefore);
            Repaired(w, cli, config, source, destination, o).succeeded <==>
              && seen.mcp in {Connected, Missing, NeedsRepair} && seen.skill in {Connected, Missing, NeedsRepair}
              && !(seen.mcp == Connected && seen.skill == Connected)
              && Installable(source, destination, o.fate)
              && match seen.mcp
                 case Missing => cli.add(config).ok
                 case NeedsRepair =>
                   var removed := cli.remove(config);
                   removed.ok && !removed.file.Unsafe? && cli.add(removed.file).ok
                 case _ => true
  {
    var seen := Inspect(w, config, source, destination, o.brokenBefore);
    InstallsExactly(source, destination, o.fate);
    if w.installed {
      CombinedIsTheWorse(seen.mcp, seen.skill);
    }
  }
}
