# FreeCAD safe mode, modelled in Dafny

FreeCAD's safe mode (`src/App/SafeMode.cpp`) protects start-up against crash
loops. Every start-up writes a boot marker file, `FREECAD_BOOT_NOT_COMPLETE` in
the OS temporary location, holding the build identity (revision, optional
branch, optional hash). The application deletes it once start-up is confirmed
(`BootUpComplete`). If a start-up finds a marker that is at most twelve hours
old and holds exactly the current identity, the previous start-up never
confirmed success. Safe mode then creates a temporary directory and points the
six user-data paths of the application configuration into it. Safe mode can
also be forced by the caller.

The model has four modules:

- `BootMarker` (`boot_marker.dfy`): the build identity and the failure
  detection, as pure functions, with lemmas about them.
- `Sandbox` (`sandbox.dfy`): the six redirected roles and the configuration
  that redirection produces, with lemmas about it.
- `Protocol` (`protocol.dfy`): one start-up (`Boot`) and the confirmation of a
  start-up (`Complete`), as functions on a state snapshot. Lemmas cover the
  round trip, the safe-mode condition, the warning and end-to-end runs.
- `SafeMode` (`safe_mode.dfy`): the class `Controller`. Its fields are the
  marker, the configuration and the static `tempDir` pointer. The source's
  functions are methods on it, each proved against the functions above.
  `InitializeSafeMode` is proved to produce `Boot` of the old state.

The OS is represented by parameters:

- the current time, in milliseconds since the epoch, as `QDateTime` keeps it;
- whether the marker opens for reading and for writing;
- the temporary directory the OS creates, or `None` when creation fails;
- the path separator `PATHSEP`.

The marker is an optional `(content, last-modified milliseconds)` pair in one
fixed location. Its age is taken as `QDateTime::secsTo` computes it: the
millisecond difference divided by 1000 and truncated toward zero (`SecsTo`).
A marker is therefore fresh while it is less than 43201 s old.

Behaviour of the source worth noting:

- Redirection is not all-or-nothing. `QDir::mkpath`'s result is ignored, and
  each role is set whether or not its directory could be made.
- `Destruct` deletes the temporary directory object but does not reset the
  pointer.
- `_bootFileContent` reads `BuildRevision` through `std::map::operator[]`. A
  missing revision therefore reads as the empty string, and the read inserts
  an empty `BuildRevision` entry into the configuration. The model includes
  this insertion (`WithRevisionEntry`). When no temporary directory is
  provisioned, the configuration is unchanged whenever `BuildRevision` was
  already set, or whenever the identity was never read. The identity is never
  read when detection stops before comparing contents and the marker cannot be
  opened for writing.
- The identity does not record which optional key a token came from
  (src/App/SafeMode.cpp:47-52). A build with branch `b` and no hash, a build
  with hash `b` and no branch, and a build with revision `a b` all have the
  identity `a b` when the others have revision `a`. A marker left by any one of
  them counts as a failed boot of the others
  (`BootMarker.IdentityIgnoresTokenOrigin`,
  `BootMarker.OtherTokenOriginDetected`).
- A second `InitializeSafeMode` call that again needs safe mode overwrites the
  pointer. It becomes null if that second creation fails.

## Model

| member | source | states |
|---|---|---|
| BootMarker.WithRevisionEntry | src/App/SafeMode.cpp:46 | reading the revision adds an empty `BuildRevision` entry only when it is missing; every existing entry keeps its value |
| BootMarker.IdentityShape | src/App/SafeMode.cpp:43-54 | the identity starts with the revision; each present optional key adds one space and its value to the length, and each absent key adds nothing |
| BootMarker.IdentityTokenOrder | src/App/SafeMode.cpp:47-52 | with both optional keys present the identity is revision, space, branch, space, hash, in that order |
| BootMarker.IdentityDependsOnlyOnBuildKeys | src/App/SafeMode.cpp:43-54 | configurations that agree on the three build keys, including which are present, have the same identity |
| BootMarker.RevisionEntryKeepsIdentity | src/App/SafeMode.cpp:46 | the entry inserted by `operator[]` does not change the identity |
| BootMarker.IdentitySeparatesHashes | src/App/SafeMode.cpp:50-52 | builds that differ only in their hash value have different identities |
| BootMarker.IdentityRecordsHashPresence | src/App/SafeMode.cpp:50-52 | a build with a hash and one without, otherwise equal, have different identities |
| BootMarker.BootFailedRecentlyIff | src/App/SafeMode.cpp:56-89 | detection is true exactly when the marker exists, has a whole-second age, as `secsTo` counts it, of at most 43200 (negative ages included), can be opened for reading and equals the identity |
| BootMarker.AbsentMarkerNoFailure | src/App/SafeMode.cpp:62-64 | no marker means no detected failure |
| BootMarker.StaleMarkerNoFailure | src/App/SafeMode.cpp:65-71 | a marker at least 43201 s old is never a detected failure, whatever its content |
| BootMarker.FreshnessBoundary | src/App/SafeMode.cpp:67-70 | ages are whole seconds truncated from milliseconds: a matching marker 43200.999 s old, or one modified 5 s in the future, is still detected; one exactly 43201 s old is not |
| BootMarker.FreshIffMillis | src/App/SafeMode.cpp:65-71 | with `secsTo`'s truncation, a marker is fresh exactly when its millisecond age is below 43201000 |
| BootMarker.IdentityIgnoresTokenOrigin | src/App/SafeMode.cpp:47-52 | a branch "b", a hash "b" and a revision "a b" give the same identity "a b": the identity does not record which optional key a token came from |
| BootMarker.OtherTokenOriginDetected | src/App/SafeMode.cpp:74-88 | a fresh marker left by a build with branch "b" counts as a failed boot of a build with hash "b" |
| BootMarker.MismatchedMarkerNoFailure | src/App/SafeMode.cpp:80-84 | a marker whose content differs from the identity in any way is not a detected failure |
| BootMarker.WrittenMarkerDetected | src/App/SafeMode.cpp:74-88 | a marker holding the current identity is detected at every time less than 43201 s after it was written, and at every earlier clock reading |
| BootMarker.OtherHashNotDetected | src/App/SafeMode.cpp:82-84 | a marker written by a build with a different hash is not detected |
| Sandbox.RedirectedAt | src/App/SafeMode.cpp:125-130 | after the loop each visited role maps to `base + SEP + role + SEP`; every other key keeps its presence and value |
| Sandbox.RedirectedKeys | src/App/SafeMode.cpp:125-130 | redirection adds exactly the visited roles to the configuration's keys |
| Sandbox.RedirectSixRoles | src/App/SafeMode.cpp:116-130 | exactly the six roles UserAppData, UserConfigPath, UserCachePath, AppTempPath, UserMacroPath and UserHomePath are overwritten; nothing else changes |
| Sandbox.RedirectionKeepsIdentity | src/App/SafeMode.cpp:111-131 | redirection leaves the build identity unchanged |
| Sandbox.RedirectionIdempotent | src/App/SafeMode.cpp:125-130 | redirecting twice into the same base equals redirecting once |
| Sandbox.RolePathInjective | src/App/SafeMode.cpp:126 | two roles that get the same directory are the same role |
| Sandbox.SixDistinctDirectories | src/App/SafeMode.cpp:116-128 | the six roles get six pairwise distinct directories |
| Protocol.BootRearmsMarker | src/App/SafeMode.cpp:142-143 | every start-up rewrites the marker with the current identity and time, whatever detection found; an unwritable marker keeps its old content and time |
| Protocol.BootSafeModeIff | src/App/SafeMode.cpp:144-151 | the pointer becomes the new directory (or null if creation failed) when a failure was detected or safe mode was forced; otherwise it is unchanged; from a null pointer, safe mode is on iff (failure or force) and creation succeeded |
| Protocol.BootWithoutSandboxKeepsPaths | src/App/SafeMode.cpp:144-151 | without a provisioned directory the configuration is unchanged apart from the inserted revision entry; it is exactly unchanged whenever `BuildRevision` was set |
| Protocol.BootRedirectsSixRoles | src/App/SafeMode.cpp:144-150 | with a provisioned directory the six roles point under it and every other existing entry keeps its value |
| Protocol.BootWarnsOnlyOnDetectedFailure | src/App/SafeMode.cpp:146-148 | the warning is issued exactly when a prior failure was detected and the directory was created; never for a merely forced start |
| Protocol.BootThenDetect | src/App/SafeMode.cpp:140-152 | after a start-up whose marker write succeeded, detection less than 43201 s later reports a failed boot, whether or not paths were redirected |
| Protocol.CompleteThenDetect | src/App/SafeMode.cpp:133-138 | after `BootUpComplete` nothing is detected; a second call changes nothing; configuration, pointer and warning are untouched |
| Protocol.BootAfterCompleteIsNormal | src/App/SafeMode.cpp:140-152 | a start-up in a fresh process after a confirmed one stays in normal mode unless forced |
| Protocol.CrashLoopEntersSafeMode | src/App/SafeMode.cpp:140-152 | a start-up that never confirms sends the next one (less than 43201 s later, same build) into safe mode, with the warning and all six roles redirected |
| Protocol.ScenarioCrashThenRecover | src/App/SafeMode.cpp:133-152 | for the identity "1.2.3 main abcdef": run 1 stays normal and writes the marker; run 2 enters safe mode with the warning; run 3, after confirmation, is normal |
| Protocol.ScenarioForced | src/App/SafeMode.cpp:144-151 | a forced start with no marker enters safe mode without the failed-boot warning |
| SafeMode.Controller.constructor | src/App/SafeMode.cpp:34 | a process starts with a null `tempDir`, the marker found on disk and the loaded configuration |
| SafeMode.Controller.BootFileContent | src/App/SafeMode.cpp:43-54 | returns the build identity of the configuration; the configuration gains the revision entry |
| SafeMode.Controller.DidBootFailRecently | src/App/SafeMode.cpp:56-89 | returns the detection result for the current marker, with the age computed by `SecsTo`; the identity, and with it the revision entry, is read only when the marker exists, is fresh and is readable |
| SafeMode.Controller.CreateTemporaryBaseDir | src/App/SafeMode.cpp:91-98 | the pointer becomes the created directory or null; the result is true iff it is non-null |
| SafeMode.Controller.CreateBootFile | src/App/SafeMode.cpp:100-109 | an openable marker is overwritten with the identity and the current time; otherwise the marker stays as it was |
| SafeMode.Controller.ReplaceDirs | src/App/SafeMode.cpp:111-131 | the loop leaves the configuration redirected as in `Sandbox.Redirected` for the six roles; only the configuration changes |
| SafeMode.Controller.BootUpComplete | src/App/SafeMode.cpp:133-138 | the marker is removed and nothing else changes |
| SafeMode.Controller.InitializeSafeMode | src/App/SafeMode.cpp:140-152 | the new marker, configuration, pointer and warning are exactly `Protocol.Boot` of the old ones |
| SafeMode.Controller.SafeModeEnabled | src/App/SafeMode.cpp:154-156 | true iff the temporary directory pointer is non-null |
| SafeMode.Controller.Destruct | src/App/SafeMode.cpp:158-160 | the temporary directory is deleted if the pointer is non-null; the pointer itself is not reset |
| SafeMode.CrashLoopRun | src/App/SafeMode.cpp:140-156 | two controllers in a row, the first never confirming: the second reports safe mode enabled |

## Left out

- `QFileInfo`, `QFile`, `QTextStream`, `QDateTime`, `QTemporaryDir` and `QStandardPaths` are foreign library calls. They are represented by the parameters listed above.
- `_getBootFailDetectionFileName` (src/App/SafeMode.cpp:36-41): the marker's location is fixed, so the model has a single marker slot and does not build its path.
- `QDir::mkpath` (src/App/SafeMode.cpp:128): the directories themselves are not modelled. Its result is ignored by the source, so the configuration is set either way, as in the model.
- Text-mode newline translation and the UTF-8 conversion between `QString` and `std::string`: marker content is compared and written as an exact string.
- `IsFresh`: the marker's last-modified time is taken at millisecond precision. A file system that keeps coarser timestamps is not modelled separately.
- Detection and the marker write use the same clock reading `now`. The few instants between the two calls are not distinguished.
- A marker write that opens but then fails part-way, and a failing `QFile::remove`, are not modelled. An open write fully replaces the marker, and removal always succeeds.
- `qWarning` output is a ghost flag `warned`, not a log.
- Memory management of the static pointer: `Destruct` is modelled as a ghost flag `sandboxDeleted`. Nothing is claimed about `SafeModeEnabled` after `Destruct`, when the C++ pointer dangles. A second `Destruct`, a double delete in C++, is not distinguished.
- Concurrent start-ups racing on the shared marker file are not modelled; the source does not guard against them.
- The `App::GetApplication().Config()` singleton is a field of the controller rather than global state.
