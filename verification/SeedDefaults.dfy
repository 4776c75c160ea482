/**
 * Seeding the default sensor list at boot: the pure decision of main/auto_pid_seed_logic.c and the
 * file steps of main/config_server.c, with the power cut at any of them and over any number of boots.
 *
 * What JSON parsing finds in a file is a parameter; file operations may fail, and they reach the
 * flash only as long as the power lasts. Rename is atomic.
 */
module SeedDefaults {
  import opened Words

  type Content = seq<u8>

  const MAX_READ := 64 * 1024

  // ---- The decision ----------------------------------------------------------------------

  /** What a parsed file holds: is it a JSON object, which keys has it, how many sensors. */
  datatype Facts = Facts(isObject: bool, hasFormat: bool, hasCalculated: bool, sensors: nat)

  datatype SeedIn = SeedIn(present: bool, statFailed: bool, tooBig: bool, parsed: bool,
                           hasFormat: bool, hasCalculated: bool, sensors: nat)

  datatype Action = Keep | Write | ReplaceBad | ReplaceOfficial

  function Decide(i: SeedIn): Action {
    if i.statFailed then Keep
    else if !i.present then Write
    else if i.tooBig then Keep
    else if !i.parsed then ReplaceBad
    else if i.hasFormat || i.hasCalculated then Keep
    else if i.sensors > 0 then Keep
    else ReplaceOfficial
  }

  const NOTHING := SeedIn(false, false, false, false, false, false, 0)

  /** Look at the stored file; `statOk` and `readOk` say whether the file system answers. */
  function Inspect(file: Option<Content>, statOk: bool, readOk: bool, parse: Content -> Facts): SeedIn {
    if !statOk then NOTHING.(statFailed := true)
    else if file.None? then NOTHING
    else
      var there := NOTHING.(present := true);
      if |file.value| > MAX_READ then there.(tooBig := true)
      else if |file.value| == 0 then there
      else if !readOk then there.(statFailed := true)
      else
        var f := parse(file.value);
        if f.isObject
        then there.(parsed := true, hasFormat := f.hasFormat, hasCalculated := f.hasCalculated, sensors := f.sensors)
        else there
  }

  /** What a boot whose file system answers would do with this file. */
  function Verdict(file: Option<Content>, parse: Content -> Facts): Action { Decide(Inspect(file, true, true, parse)) }

  /**
   * What no boot may touch: a file too large to look into, and a list with a sensor in it or with one
   * of the two keys that the Logger page writes into every file it saves.
   */
  predicate WorthKeeping(c: Content, parse: Content -> Facts) {
    var f := parse(c);
    |c| > 65536 || (0 < |c| && f.isObject && (f.hasFormat || f.hasCalculated || f.sensors > 0))
  }

  /** Where a file that is not worth keeping goes: "bad" if it is no JSON object at all. */
  function BackupOf(c: Content, parse: Content -> Facts): Name {
    if c == [] || !parse(c).isObject then Bad else Official
  }

  /** Exactly what a boot whose file system answers does with which file. */
  lemma VerdictIsExact(c: Content, parse: Content -> Facts)
    ensures Verdict(None, parse) == Write
    ensures var a := Verdict(Some(c), parse);
      if WorthKeeping(c, parse) then a == Keep else a != Keep && Backup(a) == Some(BackupOf(c, parse))
  {
  }

  /** Trouble with the file system can only make a boot keep what is there. */
  lemma TroubleOnlyKeeps(file: Option<Content>, statOk: bool, readOk: bool, parse: Content -> Facts)
    ensures Decide(Inspect(file, statOk, readOk, parse)) in {Keep, Verdict(file, parse)}
    ensures !statOk ==> Decide(Inspect(file, statOk, readOk, parse)) == Keep
    ensures !readOk && file.Some? && file.value != [] ==> Decide(Inspect(file, statOk, readOk, parse)) == Keep
  {
  }

  lemma WriteMeansMissing(file: Option<Content>, statOk: bool, readOk: bool, parse: Content -> Facts)
    ensures var a := Decide(Inspect(file, statOk, readOk, parse));
      a == Keep || (file.None? <==> a == Write)
  {
  }

  // ---- The disk --------------------------------------------------------------------------

  datatype Name = Path | Tmp | Bad | Official

  type Files = map<Name, Content>

  function Get(f: Files, n: Name): Option<Content> { if n in f then Some(f[n]) else None }

  class Disk {
    var files: Files
    /** How many more file operations reach the flash before the power is cut. */
    var power: nat

    /** The power lasts for one more operation. */
    method Powered() returns (on: bool)
      modifies this`power
      ensures on == (old(power) > 0) && power == if old(power) > 0 then old(power) - 1 else 0
    {
      on := power > 0;
      if on { power := power - 1; }
    }

    method Unlink(n: Name, works: bool)
      modifies this
      ensures files == old(files) || files == old(files) - {n}
      ensures works && old(power) > 0 ==> files == old(files) - {n}
      ensures old(power) == 0 ==> files == old(files)
      ensures power == if old(power) > 0 then old(power) - 1 else 0
    {
      var on := Powered();
      if on && works {
        files := files - {n};
      }
    }

    /** The new name holds the file and the old one does not, or nothing has changed. */
    method Rename(from: Name, to: Name, works: bool) returns (ok: bool)
      requires from != to
      modifies this
      ensures power == if old(power) > 0 then old(power) - 1 else 0
      ensures old(power) > 0 ==> ok == (works && from in old(files))
      ensures files == if ok && old(power) > 0 then old(files)[to := old(files)[from]] - {from} else old(files)
    {
      var on := Powered();
      ok := works && (on ==> from in files);
      if on && ok {
        files := files[to := files[from]] - {from};
      }
    }

    /** Open for writing: the file is there and empty. */
    method Open(n: Name, works: bool) returns (ok: bool)
      modifies this
      ensures ok == works && power == if old(power) > 0 then old(power) - 1 else 0
      ensures files == if ok && old(power) > 0 then old(files)[n := []] else old(files)
    {
      var on := Powered();
      ok := works;
      if on && ok {
        files := files[n := []];
      }
    }

    /** Write and close; a write that fails, or is cut half way, leaves anything. */
    method WriteAndClose(n: Name, c: Content, works: bool, left: Content) returns (ok: bool)
      modifies this
      ensures ok == works && power == if old(power) >= 2 then old(power) - 2 else 0
      ensures files ==
        if old(power) == 0 then old(files)
        else old(files)[n := if old(power) >= 2 && works then c else left]
    {
      ok := works;
      var begun := Powered();
      var finished := Powered();
      if begun {
        files := files[n := if finished && works then c else left];
      }
    }
  }

  // ---- One boot --------------------------------------------------------------------------

  /** How the file system behaves during one boot, and what a broken write leaves in the temporary file. */
  datatype Env = Env(power: nat, statOk: bool, readOk: bool, opens: bool, writes: bool, left: Content,
                     unlinks: bool, backsUp: bool, renames: bool)

  /**
   * The power lasts for everything a boot does: one unit to open the temporary file, two to write and
   * close it, one to unlink the old backup, and one for each rename.
   */
  predicate Faultless(e: Env) {
    e.power >= 6 && e.statOk && e.readOk && e.opens && e.writes && e.unlinks && e.backsUp && e.renames
  }

  function Backup(a: Action): Option<Name> {
    match a
    case ReplaceBad => Some(Bad)
    case ReplaceOfficial => Some(Official)
    case _ => None
  }

  /**
   * What one boot, cut anywhere or not, may make of the files.
   */
  predicate OneBoot(a: Files, b: Files, e: Env, stock: Content, parse: Content -> Facts) {
    var was, now := Get(a, Path), Get(b, Path);
    var action := Decide(Inspect(was, e.statOk, e.readOk, parse));
    // nothing happens without a reason
    && (action == Keep ==> b == a)
    // the list is the old one, none, or the whole new one
    && (now == was || now == None || now == Some(stock))
    // what was there is not lost
    && (now != was && was.Some? ==> Backup(action).Some? && Get(b, Backup(action).value) == was)
    // other backups are left alone
    && (Get(b, Bad) != Get(a, Bad) ==> action == ReplaceBad && (Get(b, Bad) == None || Get(b, Bad) == was))
    && (Get(b, Official) != Get(a, Official)
        ==> action == ReplaceOfficial && (Get(b, Official) == None || Get(b, Official) == was))
    // left alone, a boot does the whole job
    && (Faultless(e) && action != Keep ==> now == Some(stock) && Get(b, Tmp) == None)
  }

  /** config_server_seed_default_sensors */
  method SeedDefaultSensors(disk: Disk, e: Env, stock: Content, parse: Content -> Facts)
    requires disk.power == e.power
    modifies disk
    ensures OneBoot(old(disk.files), disk.files, e, stock, parse)
  {
    hide Inspect, Decide;
    var info := Inspect(Get(disk.files, Path), e.statOk, e.readOk, parse);
    var action := Decide(info);
    WriteMeansMissing(Get(disk.files, Path), e.statOk, e.readOk, parse);
    if action == Keep {
      return;
    }
    var backup := Backup(action);
    var staged := Stage(disk, e, stock);
    if !staged {
      return;
    }
    Install(disk, backup, e, stock);
  }

  /** Write the new list to the temporary file. */
  method Stage(disk: Disk, e: Env, stock: Content) returns (ok: bool)
    modifies disk
    ensures ok == (e.opens && e.writes)
    ensures forall n | n != Tmp :: Get(disk.files, n) == Get(old(disk.files), n)
    ensures ok && disk.power > 0 ==> Get(disk.files, Tmp) == Some(stock)
    ensures ok ==> disk.power == if old(disk.power) >= 3 then old(disk.power) - 3 else 0
  {
    var isOpen := disk.Open(Tmp, e.opens);
    if !isOpen {
      return false;
    }
    var written := disk.WriteAndClose(Tmp, stock, e.writes, e.left);
    if !written {
      disk.Unlink(Tmp, e.unlinks);
      return false;
    }
    return true;
  }

  /** The new list is in the temporary file: back up the old one and put the new one in its place. */
  method Install(disk: Disk, backup: Option<Name>, e: Env, stock: Content)
    requires backup in {None, Some(Bad), Some(Official)}
    requires backup.Some? <==> Get(disk.files, Path).Some?
    requires disk.power > 0 ==> Get(disk.files, Tmp) == Some(stock)
    modifies disk
    ensures Installed(old(disk.files), disk.files, backup, stock)
    ensures old(disk.power) >= 3 && e.unlinks && e.backsUp && e.renames
      ==> Get(disk.files, Path) == Some(stock) && Get(disk.files, Tmp) == None
  {
    if backup.Some? {
      disk.Unlink(backup.value, e.unlinks);
      var saved := disk.Rename(Path, backup.value, e.backsUp);
      if !saved {
        disk.Unlink(Tmp, e.unlinks);
        return;
      }
    }
    var done := disk.Rename(Tmp, Path, e.renames);
    if !done {
      disk.Unlink(Tmp, e.unlinks);
    }
  }

  predicate Installed(a: Files, b: Files, backup: Option<Name>, stock: Content) {
    var was, now := Get(a, Path), Get(b, Path);
    && (now == was || now == None || now == Some(stock))
    && (now != was && backup.Some? ==> Get(b, backup.value) == was)
    && (forall n | n in {Bad, Official} && Some(n) != backup :: Get(b, n) == Get(a, n))
    && (backup.Some? && Get(b, backup.value) != Get(a, backup.value) ==> Get(b, backup.value) in {None, was})
  }

  // ---- Any number of boots ---------------------------------------------------------------

  /** `history[i]` are the files after i boots, each with its own faults and its own power cut. */
  predicate History(history: seq<Files>, envs: seq<Env>, stock: Content, parse: Content -> Facts) {
    && |history| == |envs| + 1
    && forall i | 0 <= i < |envs| :: OneBoot(history[i], history[i + 1], envs[i], stock, parse)
  }

  lemma EarlierHistory(history: seq<Files>, envs: seq<Env>, stock: Content, parse: Content -> Facts)
    requires envs != [] && History(history, envs, stock, parse)
    ensures History(history[..|envs|], envs[..|envs| - 1], stock, parse)
  {
    hide OneBoot;
    var n := |envs| - 1;
    var hs, es := history[..n + 1], envs[..n];
    forall i | 0 <= i < n ensures OneBoot(hs[i], hs[i + 1], es[i], stock, parse) {
      assert OneBoot(history[i], history[i + 1], envs[i], stock, parse);
    }
  }

  /** Where the original list is, when boots have been at work. */
  predicate Accounted(f: Files, original: Option<Content>, stock: Content, parse: Content -> Facts) {
    || Get(f, Path) == original
    || (&& (Get(f, Path) == None || Get(f, Path) == Some(stock))
        && (original.Some? ==> !WorthKeeping(original.value, parse)
                               && Get(f, BackupOf(original.value, parse)) == original))
  }

  lemma BootKeepsAccount(a: Files, b: Files, e: Env, original: Option<Content>, stock: Content, parse: Content -> Facts)
    requires WorthKeeping(stock, parse)
    requires OneBoot(a, b, e, stock, parse) && Accounted(a, original, stock, parse)
    ensures Accounted(b, original, stock, parse)
  {
    VerdictIsExact(stock, parse);
    if original.Some? {
      VerdictIsExact(original.value, parse);
    }
    hide Inspect, Decide, WorthKeeping, BackupOf;
    TroubleOnlyKeeps(Get(a, Path), e.statOk, e.readOk, parse);
  }

  /**
   * Crash safety. However many boots there are, and wherever each is cut: the list is the original,
   * absent, or the complete default, never part of it; and an original that has been replaced was not
   * worth keeping and is in its backup. (The default list must itself be worth keeping.)
   */
  lemma {:induction false} NothingIsLost(history: seq<Files>, envs: seq<Env>, stock: Content, parse: Content -> Facts)
    requires WorthKeeping(stock, parse) && History(history, envs, stock, parse)
    ensures Accounted(history[|envs|], Get(history[0], Path), stock, parse)
  {
    if envs != [] {
      var n := |envs| - 1;
      EarlierHistory(history, envs, stock, parse);
      NothingIsLost(history[..n + 1], envs[..n], stock, parse);
      BootKeepsAccount(history[n], history[n + 1], envs[n], Get(history[0], Path), stock, parse);
    }
  }

  /** A list worth keeping is never touched, nor is anything beside it. */
  lemma {:induction false} OurFileStays(history: seq<Files>, envs: seq<Env>, stock: Content, parse: Content -> Facts)
    requires History(history, envs, stock, parse) && Get(history[0], Path).Some?
    requires WorthKeeping(history[0][Path], parse)
    ensures history[|envs|] == history[0]
  {
    if envs != [] {
      var n := |envs| - 1;
      EarlierHistory(history, envs, stock, parse);
      OurFileStays(history[..n + 1], envs[..n], stock, parse);
      TroubleOnlyKeeps(Get(history[n], Path), envs[n].statOk, envs[n].readOk, parse);
      VerdictIsExact(history[0][Path], parse);
    }
  }

  /**
   * One boot without faults: a list worth keeping stays, and nothing else changes either; any other
   * file goes to its backup, and the default takes its place. So every later boot keeps the result.
   */
  lemma FaultlessBootSettles(a: Files, b: Files, e: Env, stock: Content, parse: Content -> Facts)
    requires WorthKeeping(stock, parse) && Faultless(e) && OneBoot(a, b, e, stock, parse)
    ensures Path in b && WorthKeeping(b[Path], parse)
    ensures Path in a && WorthKeeping(a[Path], parse) ==> b == a
    ensures !(Path in a && WorthKeeping(a[Path], parse)) ==> b[Path] == stock
    ensures Path in a && !WorthKeeping(a[Path], parse) ==> Get(b, BackupOf(a[Path], parse)) == Some(a[Path])
  {
    VerdictIsExact(if Path in a then a[Path] else stock, parse);
  }
}
