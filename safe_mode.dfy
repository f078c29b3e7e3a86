/** The safe-mode controller of src/App/SafeMode.cpp: the marker file, the
    application configuration and the static `tempDir` pointer as the fields of
    one object, and the source's functions as methods that update them. */
module SafeMode {
  import opened Wrappers
  import opened BootMarker
  import opened Sandbox
  import opened Protocol

  class Controller {
    /** The marker file `FREECAD_BOOT_NOT_COMPLETE` in the OS temporary location. */
    var marker: Option<Marker>
    /** `App::GetApplication().Config()`. */
    var config: map<string, string>
    /** The static `QTemporaryDir *tempDir`: None is the null pointer. */
    var tempDir: Option<string>
    /** Whether "Failed boot detected, entering safe mode!" has been logged. */
    ghost var warned: bool
    /** Whether `Destruct` has deleted the temporary directory object. */
    ghost var sandboxDeleted: bool
    /** `PATHSEP`, the platform's path separator. */
    const pathSep: string

    ghost function Snapshot(): State
      reads this
    {
      State(marker, config, tempDir, warned)
    }

    /** A process starting up: whatever marker the disk holds, the configuration
        the application loaded, and a null `tempDir`. */
    constructor (marker: Option<Marker>, config: map<string, string>, pathSep: string)
      ensures Snapshot() == Launch(marker, config)
      ensures this.pathSep == pathSep && !sandboxDeleted
    {
      this.marker := marker;
      this.config := config;
      this.tempDir := None;
      this.warned := false;
      this.sandboxDeleted := false;
      this.pathSep := pathSep;
    }

    /** `_bootFileContent`: the identity, read through `operator[]`. */
    method BootFileContent() returns (content: string)
      modifies this`config
      ensures content == BootIdentity(old(config))
      ensures config == WithRevisionEntry(old(config))
    {
      if RevisionKey !in config {
        config := config[RevisionKey := ""];
      }
      content := config[RevisionKey];
      if BranchKey in config {
        content := content + " " + config[BranchKey];
      }
      if HashKey in config {
        content := content + " " + config[HashKey];
      }
    }

    /** `_didBootFailRecently`, with the clock (milliseconds since the epoch) and
        the outcome of opening the marker for reading supplied by the caller. */
    method DidBootFailRecently(now: int, readable: bool) returns (failed: bool)
      modifies this`config
      ensures failed == BootFailedRecently(marker, readable, old(config), now)
      ensures config == if DetectionReadsIdentity(marker, readable, now)
                        then WithRevisionEntry(old(config)) else old(config)
    {
      if marker.None? {
        return false;
      }
      var timeDifference := SecsTo(marker.value.mtime, now);
      if timeDifference > 12 * SecondsPerHour {
        return false;
      }
      if !readable {
        return false;
      }
      var content := marker.value.content;
      var identity := BootFileContent();
      if content != identity {
        return false;
      }
      return true;
    }

    /** `_createTemporaryBaseDir`: the pointer becomes the created directory, or
        null when the OS could not create one; the result says which. */
    method CreateTemporaryBaseDir(created: Option<string>) returns (ok: bool)
      modifies this`tempDir
      ensures tempDir == created
      ensures ok <==> tempDir.Some?
    {
      tempDir := created;
      ok := tempDir.Some?;
    }

    /** `_createBootFile`: when the marker opens for writing it is overwritten
        with the identity and stamped with the current time. */
    method CreateBootFile(now: int, writable: bool)
      modifies this`marker, this`config
      ensures marker == WriteMarker(old(marker), old(config), now, writable)
      ensures config == if writable then WithRevisionEntry(old(config)) else old(config)
    {
      if !writable {
        return;
      }
      var content := BootFileContent();
      RevisionEntryKeepsIdentity(old(config));
      marker := Some(Marker(content, now));
    }

    /** `_replaceDirs`: each of the six roles in turn is pointed at its directory
        under the temporary base. */
    method ReplaceDirs()
      requires tempDir.Some?
      modifies this`config
      ensures config == Redirected(old(config), tempDir.value, pathSep, SandboxRoles)
    {
      var tempBase := tempDir.value;
      var i := 0;
      while i < |SandboxRoles|
        invariant 0 <= i <= |SandboxRoles|
        invariant config == Redirected(old(config), tempBase, pathSep, SandboxRoles[..i])
      {
        var d := SandboxRoles[i];
        var path := tempBase + pathSep + d + pathSep;
        assert SandboxRoles[..i + 1][..i] == SandboxRoles[..i];
        config := config[d := path];
        i := i + 1;
      }
      assert SandboxRoles[..i] == SandboxRoles;
    }

    /** `SafeMode::BootUpComplete`: the marker is removed; removing an absent
        marker is harmless. */
    method BootUpComplete()
      modifies this`marker
      ensures Snapshot() == Complete(old(Snapshot()))
    {
      marker := None;
    }

    /** `SafeMode::InitializeSafeMode`. */
    method InitializeSafeMode(forceSafeMode: bool, env: Env)
      modifies this`marker, this`config, this`tempDir, this`warned
      ensures Snapshot() == Boot(old(Snapshot()), forceSafeMode, env, pathSep)
    {
      var bootFailedPreviously := DidBootFailRecently(env.now, env.markerReadable);
      CreateBootFile(env.now, env.markerWritable);
      if bootFailedPreviously || forceSafeMode {
        var created := CreateTemporaryBaseDir(env.newTempDir);
        if created {
          if bootFailedPreviously {
            warned := true;
          }
          ReplaceDirs();
        }
      }
    }

    /** `SafeMode::SafeModeEnabled`: whether the temporary directory pointer is set. */
    method SafeModeEnabled() returns (enabled: bool)
      ensures enabled <==> tempDir.Some?
    {
      enabled := tempDir.Some?;
    }

    /** `SafeMode::Destruct`: deletes the temporary directory object (and with it
        the directory) when there is one, without resetting the pointer. */
    method Destruct()
      modifies this`sandboxDeleted
      ensures sandboxDeleted == (old(sandboxDeleted) || tempDir.Some?)
    {
      if tempDir.Some? {
        sandboxDeleted := true;
      }
    }
  }

  /** Two processes in a row without `BootUpComplete` in between: the second one
      comes up in safe mode and reports it. */
  method CrashLoopRun(marker: Option<Marker>, config: map<string, string>, sep: string,
                      env1: Env, env2: Env, base: string) returns (enabled: bool)
    requires env1.markerWritable && env2.markerReadable
    requires env2.now - env1.now < FreshWindowMs
    requires env2.newTempDir == Some(base)
    ensures enabled
  {
    var first := new Controller(marker, config, sep);
    first.InitializeSafeMode(false, env1);
    var second := new Controller(first.marker, config, sep);
    CrashLoopEntersSafeMode(marker, config, env1, env2, sep, base);
    second.InitializeSafeMode(false, env2);
    enabled := second.SafeModeEnabled();
  }
}
