/** Installing the bundled skill over an installed one, and telling whether it is current. */
module SkillInstall {
  import opened Common
  import opened SkillTree
  import SkillReadings

  datatype Standing = Connected | Missing | NeedsRepair | Unavailable | Refused

  predicate IsDirectory(t: Option<Tree>) {
    t.Some? && (t.value["."].Directory? || (t.value["."].Odd? && t.value["."].toDirectory))
  }

  ghost predicate SameStream(t: Tree, u: Tree) {
    exists s :: IsStream(Files(t), s) && IsStream(Files(u), s)
  }

  /** What `inspectSkill` says when every file can be read. */
  ghost function SkillStanding(source: Option<Tree>, destination: Option<Tree>): Standing {
    if !IsDirectory(source) then Unavailable
    else if destination == None then Missing
    else if !Acceptable(source.value) || !Acceptable(destination.value) then Refused
    else if SameStream(source.value, destination.value) then Connected
    else NeedsRepair
  }

  /** What it says when some files cannot be: refused, if one of those is in either tree. */
  ghost function SkillSeen(source: Option<Tree>, destination: Option<Tree>, broken: set<string>): Standing {
    if IsDirectory(source) && destination.Some?
       && !(broken !! source.value.Keys && broken !! destination.value.Keys) then Refused
    else SkillStanding(source, destination)
  }

  /** Walks of the two trees, and files that cannot be read. */
  datatype Reading = Reading(sourceWalk: seq<string>, destinationWalk: seq<string>, broken: set<string>)

  ghost predicate Walks(r: Reading, source: Option<Tree>, destination: Option<Tree>) {
    && (source.Some? ==> IsWalk(source.value, r.sourceWalk))
    && (destination.Some? ==> IsWalk(destination.value, r.destinationWalk))
  }

  /** `inspectSkill`. */
  method InspectSkill(source: Option<Tree>, destination: Option<Tree>, r: Reading) returns (standing: Standing)
    requires Walks(r, source, destination)
    ensures standing == SkillSeen(source, destination, r.broken)
  {
    if !IsDirectory(source) {
      return Unavailable;
    }
    if destination == None {
      return Missing;
    }
    var sourceHash := TreeHash(source.value, r.sourceWalk, r.broken);
    var destinationHash := TreeHash(destination.value, r.destinationWalk, r.broken);
    if sourceHash == None || destinationHash == None {
      return Refused;
    }
    SameStreamIfEqual(source.value, destination.value, sourceHash.value, destinationHash.value);
    if sourceHash != destinationHash {
      return NeedsRepair;
    }
    return Connected;
  }

  lemma SameStreamIfEqual(t: Tree, u: Tree, s: string, v: string)
    requires IsStream(Files(t), s) && IsStream(Files(u), v)
    ensures s == v <==> SameStream(t, u)
  {
    if SameStream(t, u) {
      var w :| IsStream(Files(t), w) && IsStream(Files(u), w);
      StreamIsUnique(Files(t), s, w);
      StreamIsUnique(Files(u), v, w);
    }
  }

  /** Current means the same files, when no payload holds a NUL. */
  lemma CurrentExactly(source: Option<Tree>, destination: Option<Tree>)
    requires source.Some? && destination.Some? && IsDirectory(source)
    requires Acceptable(source.value) && Acceptable(destination.value)
    requires NulFree(Files(source.value)) && NulFree(Files(destination.value))
    ensures SkillStanding(source, destination) ==
            if Files(source.value) == Files(destination.value) then Connected else NeedsRepair
  {
    var f, g := Files(source.value), Files(destination.value);
    var ps := ListingExists(f);
    assert IsStream(f, Stream(ps, f));
    if SameStream(source.value, destination.value) {
      var s :| IsStream(f, s) && IsStream(g, s);
      StreamsTellFiles(f, g, s);
    }
  }

  /** A source that is one file without a NUL is told from whatever is installed. */
  lemma CurrentExactlyForOne(source: Option<Tree>, destination: Option<Tree>, p: string)
    requires source.Some? && destination.Some? && IsDirectory(source)
    requires Acceptable(source.value) && Acceptable(destination.value)
    requires Files(source.value).Keys == {p} && NUL !in Files(source.value)[p]
    ensures SkillStanding(source, destination) ==
            if Files(source.value) == Files(destination.value) then Connected else NeedsRepair
  {
    var f, g := Files(source.value), Files(destination.value);
    assert Lists([p], f) && p in source.value;
    assert IsStream(f, Stream([p], f));
    if SameStream(source.value, destination.value) {
      var s :| IsStream(f, s) && IsStream(g, s);
      PinnedWhenFew(f, [p], g, s);
    }
  }

  /** Inspection tells the source from every other skill that could be installed. */
  ghost predicate ToldFromAll(source: Option<Tree>)
    requires source.Some?
  {
    forall d: Tree :: Acceptable(d) && Holdable(Files(d).Keys) ==>
      (SkillStanding(source, Some(d)) == Connected <==> Files(d) == Files(source.value))
  }

  /** A tree with just these files. */
  lemma TreeOf(files: map<string, string>) returns (t: Tree)
    requires Sized(files) && Holdable(files.Keys) && forall p :: p in files ==> NUL !in p
    ensures Acceptable(t) && Files(t) == files
  {
    var m: map<string, Node> := map p | p in files :: File(files[p]);
    if "." in files {
      assert "." in files.Keys;
      RootIsNoName();
      t := m;
    } else {
      t := m["." := Directory];
    }
    assert Files(t).Keys == files.Keys;
  }

  lemma RootIsNoName()
    ensures !Proper(".")
  {
    var t := "/" + "." + "/";
    assert t[0..] == "/./" && "/./" <= t[0..];
  }

  lemma ToldIsPinned(source: Option<Tree>, g: map<string, string>, s: string)
    requires source.Some? && IsDirectory(source) && Acceptable(source.value) && ToldFromAll(source)
    requires (forall q :: q in g ==> NUL !in q) && Holdable(g.Keys) && Sized(g)
    requires IsStream(Files(source.value), s) && IsStream(g, s)
    ensures g == Files(source.value)
  {
    var d := TreeOf(g);
    assert SameStream(source.value, d);
    assert SkillStanding(source, Some(d)) == Connected;
  }

  lemma PinnedIsTold(source: Option<Tree>, ps: seq<string>, d: Tree)
    requires source.Some? && IsDirectory(source) && Acceptable(source.value) && Lists(ps, Files(source.value))
    requires PinnedWithin(Files(source.value)) && Acceptable(d) && Holdable(Files(d).Keys)
    ensures SkillStanding(source, Some(d)) == Connected <==> Files(d) == Files(source.value)
  {
    assert IsStream(Files(source.value), Stream(ps, Files(source.value)));
    assert Sized(Files(d));
  }

  /** That is so, payloads with NULs included, exactly when the source's stream has one reading. */
  lemma ToldFromAllExactly(source: Option<Tree>, ps: seq<string>)
    requires source.Some? && IsDirectory(source) && Acceptable(source.value) && Lists(ps, Files(source.value))
    ensures ToldFromAll(source) <==>
            SkillReadings.OneReading(SkillReadings.Flat(SkillReadings.Groups(ps, Files(source.value))),
                                     SkillReadings.Groups(ps, Files(source.value)))
  {
    var files := Files(source.value);
    SkillReadings.PinnedWithinExactly(files, ps);
    if ToldFromAll(source) {
      forall g: map<string, string>, s
        | (forall q :: q in g ==> NUL !in q) && Holdable(g.Keys) && Sized(g) && IsStream(files, s) && IsStream(g, s)
        ensures g == files
      {
        ToldIsPinned(source, g, s);
      }
    }
    if PinnedWithin(files) {
      forall d: Tree | Acceptable(d) && Holdable(Files(d).Keys)
        ensures SkillStanding(source, Some(d)) == Connected <==> Files(d) == files
      {
        PinnedIsTold(source, ps, d);
      }
    }
  }

  // ---------------------------------------------------------------------- installing

  /** How the operating system answers, step by step. A failed removal may leave part of the backup. */
  datatype Fate = Fate(parentReady: bool, unreadable: set<string>, unhashable: set<string>, movesAway: bool,
                       movesIn: bool,
                       movesBack: bool, backupLeft: Option<Tree>)

  /** The skill as installed, what is left under the backup's name, and whether the call succeeded. */
  datatype Installed = Installed(destination: Option<Tree>, backup: Option<Tree>, ok: bool)

  /** `installSkill`, said of the whole call. */
  function Install(source: Option<Tree>, destination: Option<Tree>, f: Fate): Installed {
    if !IsDirectory(source) || !f.parentReady then Installed(destination, None, false)
    else if !Acceptable(source.value) || !(f.unreadable !! source.value.Keys) then Installed(destination, None, false)
    else if destination == None then Installed(if f.movesIn then source else None, None, f.movesIn)
    else if !Acceptable(destination.value) || !(f.unhashable !! destination.value.Keys) || !f.movesAway then
      Installed(destination, None, false)
    else if f.movesIn then Installed(source, f.backupLeft, f.backupLeft == None)
    else if f.movesBack then Installed(destination, None, false)
    else Installed(None, destination, false)
  }

  /** The installed skill, replaced step by step. */
  class SkillFiles {
    var source: Option<Tree>
    var destination: Option<Tree>

    method InstallSkill(r: Reading, f: Fate) returns (ok: bool, backup: Option<Tree>)
      requires Walks(r, source, destination)
      modifies this`destination
      ensures Installed(destination, backup, ok) == Install(source, old(destination), f)
    {
      backup := None;
      if !IsDirectory(source) || !f.parentReady {
        return false, None;
      }
      var copied, staged := CopyTree(source.value, r.sourceWalk, f.unreadable);
      if !copied {
        return false, None;
      }
      if destination == None {
        if f.movesIn {
          destination := Some(staged);
        }
        return f.movesIn, None;
      }
      var hash := TreeHash(destination.value, r.destinationWalk, f.unhashable);
      if hash == None || !f.movesAway {
        return false, None;
      }
      backup, destination := destination, None;
      if !f.movesIn {
        if f.movesBack {
          destination, backup := backup, None;
        }
        return false, backup;
      }
      destination := Some(staged);
      backup := f.backupLeft;
      ok := backup == None;
    }
  }

  /** After a successful installation the skill is the source, and inspection says so. */
  lemma InstallConnects(source: Option<Tree>, destination: Option<Tree>, f: Fate)
    requires Install(source, destination, f).ok
    ensures Install(source, destination, f).destination == source
    ensures SkillStanding(source, source) == Connected
  {
    var ps := ListingExists(Files(source.value));
    assert IsStream(Files(source.value), Stream(ps, Files(source.value)));
  }

  /**
    A call that fails leaves the old skill whole, in its place or under the backup's name, or the new
    one whole in its place; and the old one is out of its place only when putting it back failed too.
  */
  lemma FailedInstallLosesNothing(source: Option<Tree>, destination: Option<Tree>, f: Fate)
    requires !Install(source, destination, f).ok
    ensures var r := Install(source, destination, f);
            || (r.destination == destination && r.backup == None)
            || (r.destination == None && r.backup == destination && destination.Some? && !f.movesIn && !f.movesBack)
            || (r.destination == source && IsDirectory(source) && Acceptable(source.value) && f.backupLeft.Some?)
    ensures !f.movesIn && f.movesBack ==> Install(source, destination, f).destination == destination
  {
  }

  /** A skill is installed exactly when the source can be copied, what was there can be taken away, and it moves in. */
  predicate Installable(source: Option<Tree>, destination: Option<Tree>, f: Fate) {
    && IsDirectory(source) && Acceptable(source.value) && f.unreadable !! source.value.Keys
    && f.parentReady && f.movesIn
    && (destination.Some? ==>
          && Acceptable(destination.value) && f.unhashable !! destination.value.Keys
          && f.movesAway && f.backupLeft == None)
  }

  lemma InstallsExactly(source: Option<Tree>, destination: Option<Tree>, f: Fate)
    ensures Install(source, destination, f).ok <==> Installable(source, destination, f)
  {
  }

  /** When each standing is given. */
  lemma StandingExactly(source: Option<Tree>, destination: Option<Tree>, broken: set<string>)
    ensures var standing := SkillSeen(source, destination, broken);
            var there := IsDirectory(source) && destination.Some?;
            && (standing == Unavailable <==> !IsDirectory(source))
            && (standing == Missing <==> IsDirectory(source) && destination.None?)
            && (standing in {Connected, NeedsRepair} <==>
                  && there && Acceptable(source.value) && Acceptable(destination.value)
                  && broken !! source.value.Keys && broken !! destination.value.Keys)
            && (standing == Connected && NulFree(Files(source.value)) && NulFree(Files(destination.value)) ==>
                  Files(source.value) == Files(destination.value))
            && (there && Files(source.value) == Files(destination.value) ==> standing != NeedsRepair)
  {
    var standing := SkillSeen(source, destination, broken);
    if standing in {Connected, NeedsRepair} {
      var ps := ListingExists(Files(source.value));
      assert IsStream(Files(source.value), Stream(ps, Files(source.value)));
      if NulFree(Files(source.value)) && NulFree(Files(destination.value)) {
        CurrentExactly(source, destination);
      }
    }
  }
}
