/** The start-up and shut-down protocol of safe mode as functions on a snapshot of
    the state (src/App/SafeMode.cpp, `InitializeSafeMode` and
    `SafeMode::BootUpComplete`): the specification the controller class meets. */
module Protocol {
  import opened Wrappers
  import opened BootMarker
  import opened Sandbox

  /** What safe mode sees and changes: the marker file, the application
      configuration, the temporary base directory (None is the null pointer;
      Some means safe mode is on) and whether the failed-boot warning was issued. */
  datatype State = State(marker: Option<Marker>, config: map<string, string>,
                         tempDir: Option<string>, warned: bool)

  /** What the operating system answers during one start-up: the clock (in
      milliseconds since the epoch, as `QDateTime` keeps it), whether
      the marker opens for reading and for writing, and the temporary directory
      it creates (None when creation fails). */
  datatype Env = Env(now: int, markerReadable: bool, markerWritable: bool,
                     newTempDir: Option<string>)

  /** `_createBootFile`: the marker is overwritten with the current identity when
      it opens for writing, and left as it was otherwise. */
  function WriteMarker(marker: Option<Marker>, config: map<string, string>,
                       now: int, writable: bool): Option<Marker>
  {
    if writable then Some(Marker(BootIdentity(config), now)) else marker
  }

  /** The configuration once detection and the marker write are done: the
      identity, read through `operator[]`, is built when detection gets as far
      as comparing contents or when the marker opens for writing. */
  function ConfigAfterIdentityRead(s: State, env: Env): map<string, string>
  {
    if DetectionReadsIdentity(s.marker, env.markerReadable, env.now) || env.markerWritable
    then WithRevisionEntry(s.config) else s.config
  }

  /** `InitializeSafeMode(force)`: detect against the marker as it was, rewrite
      the marker, then provision and redirect if a failure was found or safe
      mode is forced. */
  function Boot(s: State, force: bool, env: Env, sep: string): State
  {
    var failed := BootFailedRecently(s.marker, env.markerReadable, s.config, env.now);
    var config := ConfigAfterIdentityRead(s, env);
    var marker := WriteMarker(s.marker, config, env.now, env.markerWritable);
    if failed || force then
      match env.newTempDir
      case Some(base) => State(marker, Redirected(config, base, sep, SandboxRoles), Some(base), s.warned || failed)
      case None => State(marker, config, None, s.warned)
    else
      State(marker, config, s.tempDir, s.warned)
  }

  /** `SafeMode::BootUpComplete`: the marker is removed. */
  function Complete(s: State): State
  {
    s.(marker := None)
  }

  /** A fresh process: no temporary directory and no warning yet. */
  function Launch(marker: Option<Marker>, config: map<string, string>): State
  {
    State(marker, config, None, false)
  }

  // ---------------------------------------------------------------------------
  // Properties of one start-up

  /** The marker is rewritten with the current identity whatever detection found;
      when it cannot be opened for writing it keeps its old content and time. */
  lemma BootRearmsMarker(s: State, force: bool, env: Env, sep: string)
    ensures env.markerWritable ==> Boot(s, force, env, sep).marker == Some(Marker(BootIdentity(s.config), env.now))
    ensures !env.markerWritable ==> Boot(s, force, env, sep).marker == s.marker
  {
  }

  /** Safe mode is on after start-up exactly when a failure was detected or forced
      and the temporary directory could be created; otherwise the pointer is
      left as it was (null in a fresh process). */
  lemma BootSafeModeIff(s: State, force: bool, env: Env, sep: string)
    ensures var failed := BootFailedRecently(s.marker, env.markerReadable, s.config, env.now);
            Boot(s, force, env, sep).tempDir == if failed || force then env.newTempDir else s.tempDir
    ensures s.tempDir == None ==>
              (Boot(s, force, env, sep).tempDir.Some?
               <==> (BootFailedRecently(s.marker, env.markerReadable, s.config, env.now) || force)
                    && env.newTempDir.Some?)
  {
  }

  /** When no temporary directory is provisioned, no path is redirected: the
      configuration is unchanged apart from the BuildRevision entry that reading
      the identity may insert. */
  lemma BootWithoutSandboxKeepsPaths(s: State, force: bool, env: Env, sep: string)
    requires env.newTempDir.None? || !(BootFailedRecently(s.marker, env.markerReadable, s.config, env.now) || force)
    ensures Boot(s, force, env, sep).config == s.config
            || Boot(s, force, env, sep).config == WithRevisionEntry(s.config)
    ensures RevisionKey in s.config ==> Boot(s, force, env, sep).config == s.config
  {
  }

  /** With a temporary directory provisioned, the six roles point under it and
      every other entry keeps its value. */
  lemma BootRedirectsSixRoles(s: State, force: bool, env: Env, sep: string, base: string)
    requires env.newTempDir == Some(base)
    requires BootFailedRecently(s.marker, env.markerReadable, s.config, env.now) || force
    ensures forall r :: r in SandboxRoles ==>
              r in Boot(s, force, env, sep).config
              && Boot(s, force, env, sep).config[r] == RolePath(base, sep, r)
    ensures forall k :: k !in SandboxRoles && k in s.config ==>
              k in Boot(s, force, env, sep).config && Boot(s, force, env, sep).config[k] == s.config[k]
  {
    RedirectSixRoles(ConfigAfterIdentityRead(s, env), base, sep);
  }

  /** The failed-boot warning is issued only when a prior failure was detected
      and safe mode was entered; a merely forced start never issues it. */
  lemma BootWarnsOnlyOnDetectedFailure(s: State, force: bool, env: Env, sep: string)
    ensures Boot(s, force, env, sep).warned
            == (s.warned || (BootFailedRecently(s.marker, env.markerReadable, s.config, env.now)
                             && env.newTempDir.Some?))
  {
  }

  /** Round trip: after a start-up whose marker write succeeded, detection at any
      time less than 43201 s later (at most twelve hours in whole seconds)
      reports the failed boot, whether or not the paths were redirected. */
  lemma BootThenDetect(s: State, force: bool, env: Env, sep: string, later: int)
    requires env.markerWritable
    requires later - env.now < FreshWindowMs
    ensures var s' := Boot(s, force, env, sep);
            BootFailedRecently(s'.marker, true, s'.config, later)
  {
    var s' := Boot(s, force, env, sep);
    RevisionEntryKeepsIdentity(s.config);
    var config := ConfigAfterIdentityRead(s, env);
    if s'.config != config {
      RedirectionKeepsIdentity(config, env.newTempDir.value, sep);
    }
  }

  // ---------------------------------------------------------------------------
  // Confirming a successful start-up

  /** After `BootUpComplete` detection reports no failure; the call can be
      repeated and touches neither the configuration nor the temporary directory. */
  lemma CompleteThenDetect(s: State, readable: bool, now: int)
    ensures !BootFailedRecently(Complete(s).marker, readable, Complete(s).config, now)
    ensures Complete(Complete(s)) == Complete(s)
    ensures Complete(s).config == s.config && Complete(s).tempDir == s.tempDir
    ensures Complete(s).warned == s.warned
  {
  }

  /** A start-up that follows a confirmed one, in a fresh process, stays in normal
      mode unless forced. */
  lemma BootAfterCompleteIsNormal(s: State, env: Env, sep: string)
    ensures Boot(Launch(Complete(s).marker, s.config), false, env, sep).tempDir == None
  {
  }

  // ---------------------------------------------------------------------------
  // End-to-end runs

  /** A crash loop: a start-up that never confirms success leaves a marker that
      sends the next start-up (in a fresh process, within twelve hours, same
      build) into safe mode with all six roles redirected and the warning issued. */
  lemma CrashLoopEntersSafeMode(marker: Option<Marker>, config: map<string, string>,
                                env1: Env, env2: Env, sep: string, base: string)
    requires env1.markerWritable && env2.markerReadable
    requires env2.now - env1.now < FreshWindowMs
    requires env2.newTempDir == Some(base)
    ensures var run1 := Boot(Launch(marker, config), false, env1, sep);
            var run2 := Boot(Launch(run1.marker, config), false, env2, sep);
            run2.tempDir == Some(base) && run2.warned
            && forall r :: r in SandboxRoles ==> r in run2.config && run2.config[r] == RolePath(base, sep, r)
  {
    var run1 := Boot(Launch(marker, config), false, env1, sep);
    BootRearmsMarker(Launch(marker, config), false, env1, sep);
    WrittenMarkerDetected(config, env1.now, env2.now);
    BootRedirectsSixRoles(Launch(run1.marker, config), false, env2, sep, base);
  }

  /** The build identity "1.2.3 main abcdef": a first run without a marker stays
      normal and writes the marker; a second run within twelve hours enters safe
      mode with the warning; confirming it and starting again is normal. */
  lemma ScenarioCrashThenRecover(paths: map<string, string>, sep: string, base: string,
                                 t1: int, t2: int, t3: int)
    requires 0 <= t2 - t1 <= MaxMarkerAge * 1000
    ensures var config := paths[RevisionKey := "1.2.3"][BranchKey := "main"][HashKey := "abcdef"];
            var run1 := Boot(Launch(None, config), false, Env(t1, true, true, Some(base)), sep);
            var run2 := Boot(Launch(run1.marker, config), false, Env(t2, true, true, Some(base)), sep);
            var run3 := Boot(Launch(Complete(run2).marker, config), false, Env(t3, true, true, Some(base)), sep);
            && run1.tempDir == None && !run1.warned
            && run1.marker == Some(Marker("1.2.3 main abcdef", t1))
            && run2.tempDir == Some(base) && run2.warned
            && run3.tempDir == None && !run3.warned
  {
    var config := paths[RevisionKey := "1.2.3"][BranchKey := "main"][HashKey := "abcdef"];
    assert BootIdentity(config) == "1.2.3 main abcdef";
  }

  /** A forced start with no marker enters safe mode without the failed-boot warning. */
  lemma ScenarioForced(config: map<string, string>, env: Env, sep: string, base: string)
    requires env.newTempDir == Some(base)
    ensures Boot(Launch(None, config), true, env, sep).tempDir == Some(base)
    ensures !Boot(Launch(None, config), true, env, sep).warned
  {
  }
}
