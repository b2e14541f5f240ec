/** The two scripts that change a node (pushViaSSHUnlocked and buildAtomicDeployCommand
    in handler/config.go, verifiedInstallScript in handler/install.go), run under
    `set -e`: any command may fail, and a copy that fails may leave its target torn. */
module NodeScripts {
  import opened Tables
  import opened PushOutcome

  /** The commands of a push, in order: the first three run before the script, `CopyBack` to `CleanUp`
      only after a failed restart. Without a previous file, `CopyBack` is the removal of the new one. */
  datatype Command =
    | Connect | WriteTmp | Check
    | Mkdir | Backup | Install | RemoveTmp | Restart | RemoveBackup
    | CopyBack | RestartAgain | CleanUp

  predicate Early(fails: set<Command>, had: bool) {
    !(fails !! {Connect, WriteTmp, Check, Mkdir}) || (had && Backup in fails)
  }

  /** What the push comes to, read off the commands that fail and the copies that tear; `had` says there
      was a configuration file. `Landed` is not yet success: the last clean-up may still fail. */
  function HowOf(fails: set<Command>, torn: set<Command>, had: bool): Failure {
    if Early(fails, had) then Kept
    else if Install in fails then (if Install in torn then Spoiled else Kept)
    else if RemoveTmp in fails then Staged
    else if Restart !in fails then Landed
    else if CopyBack in fails then Down(if had && CopyBack in torn then TornFile else NewFile)
    else if !had || RestartAgain in fails then Down(OldFile)
    else FellBack
  }

  class ConfigHost {
    var config: File<string>
    var backup: File<string>
    var tmp: File<string>
    var serving: Option<string>

    /** cp: when it fails the target is as it was, or torn. */
    method Copy(from: File<string>, to: File<string>, command: Command, fails: set<Command>, torn: set<Command>)
      returns (ok: bool, target: File<string>)
      ensures ok == (command !in fails)
      ensures target == if ok then from else if command in torn then Torn else to
    {
      ok := command !in fails;
      target := if ok then from else if command in torn then Torn else to;
    }

    /** systemctl restart: the service comes up on the configuration in the file, or it is down. */
    method RestartService(command: Command, fails: set<Command>) returns (ok: bool)
      modifies this`serving
      ensures ok == (command !in fails && config.Holds?)
      ensures serving == if ok then Some(config.content) else None
    {
      ok := command !in fails && config.Holds?;
      serving := if ok then Some(config.content) else None;
    }

    /** The deploy script. For every set of failing commands: its exit, what is in the file, and what is
        served. */
    method Deploy(fails: set<Command>, torn: set<Command>) returns (exitOk: bool)
      requires tmp.Holds? && fails !! {Connect, WriteTmp, Check}
      modifies this
      ensures var how := HowOf(fails, torn, old(config) != NoFile); var candidate := old(tmp).content;
              && (exitOk <==> how == Landed && RemoveBackup !in fails)
              && config == FileAfter(old(config), candidate, how)
              && serving == ServedAfter(old(config), old(serving), candidate, how)
    {
      if Mkdir in fails { return false; }
      var hadPrevious, ok := false, true;
      if config != NoFile {
        ok, backup := Copy(config, backup, Backup, fails, torn);
        if !ok { return false; }
        hadPrevious := true;
      }
      ok, config := Copy(tmp, config, Install, fails, torn);
      if !ok { return false; }
      if RemoveTmp in fails { return false; }
      tmp := NoFile;
      ok := RestartService(Restart, fails);
      if ok {
        if RemoveBackup in fails { return false; }
        backup := NoFile;
        return true;
      }
      if hadPrevious {
        ok, config := Copy(backup, config, CopyBack, fails, torn);
        if !ok { return false; }
      } else {
        if CopyBack in fails { return false; }
        config := NoFile;
      }
      ok := RestartService(RestartAgain, fails);
      if CleanUp !in fails { backup := NoFile; }
      return false;
    }

    /** One push, to a node in any state. The answer may be lost on the way back. From a node that serves
        what is in its file: a failed push leaves the old configuration served exactly when a command
        before the restart failed, or the restart failed and restoring worked; and the new one exactly
        when only the last clean-up failed or the answer was lost; and otherwise nothing. From any other
        node restoring serves what the file held, which is neither. */
    method Push(candidate: string, fails: set<Command>, torn: set<Command>, answerLost: bool) returns (ok: bool)
      modifies this
      ensures var how := HowOf(fails, torn, old(config) != NoFile);
              && (ok <==> how == Landed && RemoveBackup !in fails && !answerLost)
              && config == FileAfter(old(config), candidate, how)
              && serving == ServedAfter(old(config), old(serving), candidate, how)
      ensures InOrder(old(config), old(serving)) && old(serving) != Some(candidate) ==>
                var before := {Connect, WriteTmp, Check, Mkdir, Backup, Install, RemoveTmp};
                && (serving == old(serving) <==>
                      !(fails !! before) || (Restart in fails && CopyBack !in fails && RestartAgain !in fails))
                && (!ok && serving == Some(candidate) <==>
                      fails !! before && Restart !in fails && (RemoveBackup in fails || answerLost))
      ensures serving !in {old(serving), Some(candidate), None} <==>
                && fails !! {Connect, WriteTmp, Check, Mkdir, Backup, Install, RemoveTmp, CopyBack, RestartAgain}
                && Restart in fails
                && old(config).Holds? && old(config).content != candidate && old(serving) != Some(old(config).content)
    {
      if Connect in fails { return false; }
      if WriteTmp in fails {
        tmp := Torn;
        return false;
      }
      tmp := Holds(candidate);
      if Check in fails { return false; }
      var exitOk := Deploy(fails, torn);
      ok := exitOk && !answerLost;
    }
  }

  // ---- upgrades ----

  /** The commands of an upgrade, in order, from the first that touches the installed binary's
      directory. `Settle` is the service staying up for two seconds, `Confirm` the look at its process. */
  datatype InstallCommand =
    | MakeDir | SaveOld | InstallNew | MoveNew
    | StartNew | Settle | Confirm
    | MoveBack | StartOld
    | CheckVersion

  class BinaryHost {
    var binary: Option<string>
    var previous: Option<string>
    var running: Option<string>

    /** Restart, and then the check that the running process is the installed binary. */
    method RestartRuns(fails: set<InstallCommand>) returns (ok: bool)
      requires binary.Some?
      modifies this`running
      ensures ok <==> fails !! {StartNew, Settle, Confirm}
      ensures running == if fails !! {StartNew, Settle} then binary else None
    {
      running := None;
      if StartNew in fails { return false; }
      running := binary;
      if Settle in fails {
        running := None;
        return false;
      }
      ok := Confirm !in fails;
    }

    /** verifiedInstallScript. `candidate` is the version the downloaded binary reports, if the download
        and the unpacking worked; `accepted` says whether it has the needed build tag and accepts the
        node's configuration. An upgrade that fails puts the old binary back, or never replaced it, except
        when moving it back failed, when there was none, or when only the last look at the version failed:
        then the new one stays. */
    method Install(candidate: Option<string>, wanted: string, accepted: bool, fails: set<InstallCommand>)
      returns (exitOk: bool)
      modifies this
      ensures var replaced := && candidate == Some(wanted) && accepted && fails !! {MakeDir, InstallNew, MoveNew}
                              && (old(binary).Some? ==> SaveOld !in fails);
              var failed := replaced && old(running).Some? && !(fails !! {StartNew, Settle, Confirm});
              && (exitOk <==> replaced && !failed && CheckVersion !in fails)
              && (!replaced ==> binary == old(binary) && running == old(running))
              && (replaced && !failed ==>
                    binary == Some(wanted) && running == if old(running).Some? then Some(wanted) else None)
              && (failed && old(binary).Some? && MoveBack !in fails ==>
                    binary == old(binary) && running == if StartOld in fails then None else old(binary))
              && (failed && (old(binary).None? || MoveBack in fails) ==>
                    binary == Some(wanted) && running == if fails !! {StartNew, Settle} then Some(wanted) else None)
      ensures !exitOk && old(binary) != Some(wanted) ==>
                (binary != old(binary) <==>
                   && candidate == Some(wanted) && accepted && fails !! {MakeDir, InstallNew, MoveNew}
                   && (old(binary).Some? ==> SaveOld !in fails)
                   && if old(running).None? || fails !! {StartNew, Settle, Confirm} then CheckVersion in fails
                      else old(binary).None? || MoveBack in fails)
    {
      if candidate != Some(wanted) || !accepted || MakeDir in fails { return false; }
      var wasRunning := running.Some?;
      var hadBinary := false;
      if binary.Some? {
        if SaveOld in fails { return false; }
        previous, hadBinary := binary, true;
      }
      if InstallNew in fails || MoveNew in fails { return false; }
      binary := candidate;
      if wasRunning {
        var ok := RestartRuns(fails);
        if !ok {
          if hadBinary {
            if MoveBack in fails { return false; }
            binary, previous := previous, None;
            running := if StartOld in fails then None else binary;
          }
          return false;
        }
      }
      exitOk := CheckVersion !in fails;
    }
  }
}
