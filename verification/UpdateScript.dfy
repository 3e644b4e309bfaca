/** The transactional part of deploy/update-dronservice.sh: back up the managed files,
    install the new ones, switch the `current` and binary links, check health, and
    roll back from wherever it fails.  Rollback's own commands succeed. */
module UpdateScript {
  import opened Options

  /** A managed file: its asset name and where it is installed. */
  datatype Entry = Entry(name: string, destination: string)

  /** /usr/local/bin/dronservice points through `current`, or straight at a release. */
  datatype BinaryLink = ThroughCurrent | Direct(release: string)

  /** Where the script fails; `junk` is what the failed command left at its target. */
  datatype Failure =
    | NoFailure
    | BeforeBackup
    | InBackup(at: nat, junk: Option<string>)
    | InInstall(at: nat, junk: Option<string>)
    | BeforeSwitch
    | LinkBinary
    | SwitchBinary
    | AfterSwitch

  function Absent(name: string): string {
    name + ".absent"
  }

  /** Names and destinations are distinct, and no name is another's absence marker. */
  ghost predicate Distinct(entries: seq<Entry>) {
    forall i, j :: 0 <= i < |entries| && 0 <= j < |entries| && i != j ==>
      && entries[i].name != entries[j].name
      && entries[i].destination != entries[j].destination
      && entries[i].name != Absent(entries[j].name)
  }

  predicate Managed(entries: seq<Entry>, path: string) {
    exists i :: 0 <= i < |entries| && entries[i].destination == path
  }

  /** Two file systems agree on a path: same content, or absent in both. */
  predicate Same(a: map<string, string>, b: map<string, string>, path: string) {
    (path in a <==> path in b) && (path in a ==> a[path] == b[path])
  }

  function Put(files: map<string, string>, path: string, content: Option<string>): map<string, string> {
    if content.Some? then files[path := content.value] else files - {path}
  }

  /** The release the binary link leads to. */
  function Effective(bin: BinaryLink, current: string): string {
    if bin.Direct? then bin.release else current
  }

  /** The two links when the script has ended: switched, left half-switched, put back
      or never touched. */
  function Links(failure: Failure, current: string, bin: BinaryLink, release: string): (string, BinaryLink) {
    match failure
    case NoFailure => (release, ThroughCurrent)
    case AfterSwitch => (Effective(bin, current), ThroughCurrent)
    case LinkBinary => (release, bin)
    case SwitchBinary => (release, bin)
    case _ => (current, bin)
  }

  /** A failed update to another release restores both links if and only if it did not
      fail between lines 207 and 210, where `switched` is not yet set, and did not
      fail later with a binary that was linked straight at a release: the rollback
      then links it through `current`. */
  lemma LinksRestored(failure: Failure, current: string, bin: BinaryLink, release: string)
    requires !failure.NoFailure? && release != current
    ensures Links(failure, current, bin, release) == (current, bin)
            <==> !failure.LinkBinary? && !failure.SwitchBinary? && (failure.AfterSwitch? ==> bin.ThroughCurrent?)
  {
  }

  /** It restores `current` alone if and only if it did not fail at those lines, and
      after the switch the binary led to the release that `current` named. */
  lemma CurrentRestored(failure: Failure, current: string, bin: BinaryLink, release: string)
    requires !failure.NoFailure? && release != current
    ensures Links(failure, current, bin, release).0 == current
            <==> !failure.LinkBinary? && !failure.SwitchBinary? && (failure.AfterSwitch? ==> Effective(bin, current) == current)
  {
  }

  /** A failure at those lines leaves a binary that is linked through `current` leading
      to the release that was never checked. */
  lemma UncheckedReleaseRuns(failure: Failure, current: string, release: string)
    requires failure.LinkBinary? || failure.SwitchBinary?
    ensures var (c, b) := Links(failure, current, ThroughCurrent, release); Effective(b, c) == release
  {
  }

  /** A binary linked straight at a release leads to that release again after a late
      failure, though `current` then names it too. */
  lemma EffectiveRestored(failure: Failure, current: string, bin: BinaryLink, release: string)
    requires !failure.NoFailure? && (bin.Direct? || (!failure.LinkBinary? && !failure.SwitchBinary?))
    ensures var (c, b) := Links(failure, current, bin, release);
            Effective(b, c) == Effective(bin, current)
  {
  }

  /** The backup holds an entry's content, or its absence marker. */
  ghost predicate BackedUp(backup: map<string, string>, files: map<string, string>, e: Entry) {
    if e.destination in files then e.name in backup && backup[e.name] == files[e.destination]
    else e.name !in backup && Absent(e.name) in backup
  }

  class Deployment {
    var files: map<string, string>
    var backup: map<string, string>
    var current: string
    var bin: BinaryLink
    var deploymentChanged: bool
    var switched: bool

    /** The loop at lines 172-187; `stop` is the entry whose backup command fails. */
    method Backup(entries: seq<Entry>, stop: Option<nat>, junk: Option<string>) returns (ok: bool)
      requires backup == map[] && Distinct(entries)
      modifies this`backup
      ensures ok <==> stop.None? || stop.value >= |entries|
      ensures ok ==> forall i :: 0 <= i < |entries| ==> BackedUp(backup, files, entries[i])
    {
      for i := 0 to |entries|
        invariant stop.Some? ==> i <= stop.value
        invariant forall j :: 0 <= j < i ==> BackedUp(backup, files, entries[j])
        invariant forall j :: i <= j < |entries| ==> entries[j].name !in backup
      {
        var e := entries[i];
        if stop == Some(i) {
          backup := Put(backup, e.name, junk);
          return false;
        }
        ghost var before := backup;
        if e.destination in files {
          backup := backup[e.name := files[e.destination]];
        } else {
          backup := backup[Absent(e.name) := ""];
        }
        forall j | 0 <= j <= i ensures BackedUp(backup, files, entries[j]) {
          if j < i {
            assert BackedUp(before, files, entries[j]);
            assert entries[j].name != e.name && entries[j].name != Absent(e.name);
          }
        }
        forall j | i < j < |entries| ensures entries[j].name !in backup {
          assert entries[j].name != e.name && entries[j].name != Absent(e.name);
        }
      }
      return true;
    }

    /** Lines 189-195: install assets over managed destinations, in any order. */
    method Install(entries: seq<Entry>, installs: seq<(string, string)>, stop: Option<nat>, junk: Option<string>) returns (ok: bool)
      requires forall i :: 0 <= i < |installs| ==> Managed(entries, installs[i].0)
      modifies this`files
      ensures ok <==> stop.None? || stop.value >= |installs|
      ensures forall p :: !Managed(entries, p) ==> Same(files, old(files), p)
      ensures ok ==> files == Installed(old(files), installs)
    {
      for i := 0 to |installs|
        invariant stop.Some? ==> i <= stop.value
        invariant files == Installed(old(files), installs[..i])
        invariant forall p :: !Managed(entries, p) ==> Same(files, old(files), p)
      {
        if stop == Some(i) {
          files := Put(files, installs[i].0, junk);
          return false;
        }
        files := files[installs[i].0 := installs[i].1];
        InstalledStep(old(files), installs, i);
      }
      assert installs[..|installs|] == installs;
      return true;
    }

    /** The loop at lines 37-56 and the links at lines 59-68. */
    method Rollback(entries: seq<Entry>, previous: string, ghost original: map<string, string>)
      requires Distinct(entries)
      requires deploymentChanged ==> forall i :: 0 <= i < |entries| ==> BackedUp(backup, original, entries[i])
      requires deploymentChanged ==> forall p :: !Managed(entries, p) ==> Same(files, original, p)
      requires !deploymentChanged ==> files == original
      modifies this
      ensures files == original
      ensures current == (if old(switched) then previous else old(current))
      ensures bin == (if old(switched) then ThroughCurrent else old(bin))
    {
      if deploymentChanged {
        for i := 0 to |entries|
          invariant backup == old(backup) && current == old(current) && bin == old(bin) && switched == old(switched)
          invariant forall j :: 0 <= j < i ==> Same(files, original, entries[j].destination)
          invariant forall p :: !Managed(entries, p) ==> Same(files, original, p)
        {
          var e := entries[i];
          assert BackedUp(backup, original, e);
          ghost var before := files;
          if e.name in backup {
            files := files[e.destination := backup[e.name]];
          } else if Absent(e.name) in backup {
            files := files - {e.destination};
          }
          forall j | 0 <= j <= i ensures Same(files, original, entries[j].destination) {
            if j < i { assert entries[j].destination != e.destination && Same(before, original, entries[j].destination); }
          }
          forall p | !Managed(entries, p) ensures Same(files, original, p) {
            assert Same(before, original, p) && p != e.destination;
          }
        }
        forall p ensures Same(files, original, p) {
          if Managed(entries, p) {
            var i :| 0 <= i < |entries| && entries[i].destination == p;
            assert Same(files, original, entries[i].destination);
          }
        }
        SameEverywhere(files, original);
      }
      if switched {
        current := previous;
        bin := ThroughCurrent;
      }
    }

    /** One run of the script. */
    method Update(entries: seq<Entry>, installs: seq<(string, string)>, release: string, failure: Failure) returns (ok: bool)
      requires Distinct(entries) && backup == map[] && !deploymentChanged && !switched
      requires forall i :: 0 <= i < |installs| ==> Managed(entries, installs[i].0)
      requires failure.InBackup? ==> failure.at < |entries|
      requires failure.InInstall? ==> failure.at < |installs|
      modifies this
      ensures ok <==> failure.NoFailure?
      // nothing of a failed deployment stays behind
      ensures !ok ==> files == old(files)
      ensures ok ==> files == Installed(old(files), installs)
      ensures (current, bin) == Links(failure, old(current), old(bin), release)
      ensures ok ==> current == release && bin == ThroughCurrent
    {
      ghost var original := files;
      var previous := Effective(bin, current);
      if failure.BeforeBackup? {
        Rollback(entries, previous, original);
        return false;
      }
      ok := Backup(entries, if failure.InBackup? then Some(failure.at) else None, if failure.InBackup? then failure.junk else None);
      if !ok {
        Rollback(entries, previous, original);
        return;
      }
      deploymentChanged := true;
      ok := Install(entries, installs, if failure.InInstall? then Some(failure.at) else None, if failure.InInstall? then failure.junk else None);
      if !ok || failure.BeforeSwitch? {
        Rollback(entries, previous, original);
        return false;
      }
      current := release;
      if failure.LinkBinary? || failure.SwitchBinary? {
        Rollback(entries, previous, original);
        return false;
      }
      bin := ThroughCurrent;
      switched := true;
      if failure.AfterSwitch? {
        Rollback(entries, previous, original);
        return false;
      }
      return true;
    }
  }

  function Installed(files: map<string, string>, installs: seq<(string, string)>): map<string, string> {
    if installs == [] then files
    else
      var k := |installs| - 1;
      Installed(files, installs[..k])[installs[k].0 := installs[k].1]
  }

  lemma InstalledStep(files: map<string, string>, installs: seq<(string, string)>, i: nat)
    requires i < |installs|
    ensures Installed(files, installs[..i + 1]) == Installed(files, installs[..i])[installs[i].0 := installs[i].1]
  {
    assert installs[..i + 1][..i] == installs[..i];
  }

  /** Afterwards a file is the last one installed at its place ... */
  lemma {:induction false} LastInstalled(files: map<string, string>, installs: seq<(string, string)>, i: nat)
    requires i < |installs| && forall j :: i < j < |installs| ==> installs[j].0 != installs[i].0
    ensures var after := Installed(files, installs); installs[i].0 in after && after[installs[i].0] == installs[i].1
  {
    var k := |installs| - 1;
    if i < k {
      assert installs[k].0 != installs[i].0;
      LastInstalled(files, installs[..k], i);
    }
  }

  /** ... or the old one, where none was. */
  lemma {:induction false} NotInstalled(files: map<string, string>, installs: seq<(string, string)>, path: string)
    requires forall j :: 0 <= j < |installs| ==> installs[j].0 != path
    ensures Same(Installed(files, installs), files, path)
  {
    if installs != [] {
      var k := |installs| - 1;
      assert installs[k].0 != path;
      NotInstalled(files, installs[..k], path);
    }
  }

  lemma SameEverywhere(a: map<string, string>, b: map<string, string>)
    requires forall p :: Same(a, b, p)
    ensures a == b
  {
    assert forall p :: p in a ==> Same(a, b, p);
    assert forall p :: p in b ==> Same(a, b, p);
  }

  // --------------------------------------------------------- the script's own list

  /** The managed files of lines 172-184. */
  const MANAGED := [
    Entry("update-dronservice.sh", "/usr/local/libexec/dronservice-update"),
    Entry("migrate-local-settings.sh", "/usr/local/libexec/dronservice-migrate-local-settings"),
    Entry("install-mediamtx.sh", "/usr/local/libexec/dronservice-install-mediamtx"),
    Entry("dronservice.service", "/etc/systemd/system/dronservice.service"),
    Entry("dronservice-update.service", "/etc/systemd/system/dronservice-update.service"),
    Entry("dronservice-update.path", "/etc/systemd/system/dronservice-update.path"),
    Entry("dronservice-mediamtx-install.service", "/etc/systemd/system/dronservice-mediamtx-install.service"),
    Entry("dronservice-mediamtx-install.path", "/etc/systemd/system/dronservice-mediamtx-install.path"),
    Entry("dronservice-camera-network-helper", "/usr/local/libexec/dronservice-camera-network-helper"),
    Entry("dronservice-camera-network.service", "/etc/systemd/system/dronservice-camera-network.service"),
    Entry("dronservice-camera-network.path", "/etc/systemd/system/dronservice-camera-network.path"),
    Entry("mediamtx.service", "/etc/systemd/system/mediamtx.service")]

  lemma MarkersDiffer(i: nat, j: nat)
    requires i < |MANAGED| && j < |MANAGED|
    ensures MANAGED[i].name != Absent(MANAGED[j].name)
  {
    var n, m := MANAGED[i].name, Absent(MANAGED[j].name);
    assert m[|m| - 1] == 't';
    assert n[|n| - 1] == 'h' || n[|n| - 1] == 'e' || n[|n| - 1] == 'r';
  }

  lemma NamesDiffer(i: nat, j: nat)
    requires i < j < |MANAGED|
    ensures MANAGED[i].name != MANAGED[j].name
  {
  }

  lemma DestinationsDiffer(i: nat, j: nat)
    requires i < j < |MANAGED|
    ensures MANAGED[i].destination != MANAGED[j].destination
  {
  }

  /** The script's own list meets what backup and rollback rely on. */
  lemma ScriptIsDistinct()
    ensures Distinct(MANAGED)
  {
    hide Absent;
    forall i, j | 0 <= i < |MANAGED| && 0 <= j < |MANAGED| && i != j
      ensures MANAGED[i].name != MANAGED[j].name && MANAGED[i].destination != MANAGED[j].destination
      ensures MANAGED[i].name != Absent(MANAGED[j].name)
    {
      MarkersDiffer(i, j);
      if i < j {
        NamesDiffer(i, j);
        DestinationsDiffer(i, j);
      } else {
        NamesDiffer(j, i);
        DestinationsDiffer(j, i);
      }
    }
  }
}
