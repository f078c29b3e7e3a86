/** Crash-loop detection: the build identity written into the boot marker and the
    test that decides whether the previous start-up never confirmed success
    (src/App/SafeMode.cpp, `_bootFileContent` and `_didBootFailRecently`). */
module BootMarker {
  import opened Wrappers

  /** The marker file as the file system reports it: its whole text and its
      last-modified time in milliseconds since the epoch, both read from the one
      fixed marker location. */
  datatype Marker = Marker(content: string, mtime: int)

  const SecondsPerHour: int := 3600
  /** A marker older than this many whole seconds is stale. */
  const MaxMarkerAge: int := 12 * SecondsPerHour
  /** Ages in milliseconds below this bound are at most `MaxMarkerAge` whole seconds. */
  const FreshWindowMs: int := (MaxMarkerAge + 1) * 1000

  const RevisionKey: string := "BuildRevision"
  const BranchKey: string := "BuildRevisionBranch"
  const HashKey: string := "BuildRevisionHash"

  /** `config["BuildRevision"]`: `std::map::operator[]` yields "" for an absent key. */
  function Revision(config: map<string, string>): string
  {
    if RevisionKey in config then config[RevisionKey] else ""
  }

  /** The build identity stored in the marker: the revision, then " " and the branch
      when a branch is configured, then " " and the hash when a hash is configured. */
  function BootIdentity(config: map<string, string>): string
  {
    var withBranch := if BranchKey in config then Revision(config) + " " + config[BranchKey]
                      else Revision(config);
    if HashKey in config then withBranch + " " + config[HashKey] else withBranch
  }

  /** The configuration after `BootIdentity` has been read through `operator[]`,
      which inserts an empty BuildRevision entry when there is none. */
  function WithRevisionEntry(config: map<string, string>): (r: map<string, string>)
    ensures r.Keys == config.Keys + {RevisionKey}
    ensures forall k :: k in config ==> r[k] == config[k]
    ensures RevisionKey !in config ==> r[RevisionKey] == ""
  {
    if RevisionKey in config then config else config[RevisionKey := ""]
  }

  /** `QDateTime::secsTo`: the whole seconds from `fromMs` to `toMs`, the
      millisecond difference divided by 1000 and truncated toward zero. */
  function SecsTo(fromMs: int, toMs: int): (r: int)
    ensures toMs - fromMs >= 0 ==> 0 <= 1000 * r <= toMs - fromMs < 1000 * r + 1000
    ensures toMs - fromMs < 0 ==> 1000 * r - 1000 < toMs - fromMs <= 1000 * r <= 0
  {
    var d := toMs - fromMs;
    if d >= 0 then d / 1000 else -((-d) / 1000)
  }

  /** A marker is fresh when its age, in whole seconds as `secsTo` counts them,
      is at most twelve hours; a negative age (modified "in the future") is
      fresh as well. */
  predicate IsFresh(m: Marker, now: int)
  {
    SecsTo(m.mtime, now) <= MaxMarkerAge
  }

  /** `_didBootFailRecently`: the checks in the order the source makes them.
      `readable` is whether opening the existing marker for reading succeeds. */
  function BootFailedRecently(marker: Option<Marker>, readable: bool,
                              config: map<string, string>, now: int): bool
  {
    if marker.None? then false
    else if SecsTo(marker.value.mtime, now) > MaxMarkerAge then false
    else if !readable then false
    else if marker.value.content != BootIdentity(config) then false
    else true
  }

  /** Whether detection gets as far as building the identity, and so as far as
      reading BuildRevision through `operator[]`. */
  predicate DetectionReadsIdentity(marker: Option<Marker>, readable: bool, now: int)
  {
    marker.Some? && IsFresh(marker.value, now) && readable
  }

  // ---------------------------------------------------------------------------
  // The build identity

  /** The identity starts with the revision and grows by one separator and one
      token for each optional key that is present. */
  lemma IdentityShape(config: map<string, string>)
    ensures Revision(config) <= BootIdentity(config)
    ensures |BootIdentity(config)| == |Revision(config)|
              + (if BranchKey in config then 1 + |config[BranchKey]| else 0)
              + (if HashKey in config then 1 + |config[HashKey]| else 0)
  {
  }

  /** The branch comes before the hash: with both present the identity ends with
      " " + hash, preceded by " " + branch. */
  lemma IdentityTokenOrder(config: map<string, string>)
    requires BranchKey in config && HashKey in config
    ensures BootIdentity(config) == Revision(config) + " " + config[BranchKey] + " " + config[HashKey]
  {
  }

  /** Only the three build keys feed the identity. */
  lemma IdentityDependsOnlyOnBuildKeys(c1: map<string, string>, c2: map<string, string>)
    requires Revision(c1) == Revision(c2)
    requires BranchKey in c1 <==> BranchKey in c2
    requires BranchKey in c1 ==> c1[BranchKey] == c2[BranchKey]
    requires HashKey in c1 <==> HashKey in c2
    requires HashKey in c1 ==> c1[HashKey] == c2[HashKey]
    ensures BootIdentity(c1) == BootIdentity(c2)
  {
  }

  /** Reading the identity through `operator[]` does not change it. */
  lemma RevisionEntryKeepsIdentity(config: map<string, string>)
    ensures BootIdentity(WithRevisionEntry(config)) == BootIdentity(config)
  {
  }

  /** Two builds that differ only in their hash have different identities. */
  lemma IdentitySeparatesHashes(c1: map<string, string>, c2: map<string, string>)
    requires Revision(c1) == Revision(c2)
    requires BranchKey in c1 <==> BranchKey in c2
    requires BranchKey in c1 ==> c1[BranchKey] == c2[BranchKey]
    requires HashKey in c1 && HashKey in c2 && c1[HashKey] != c2[HashKey]
    ensures BootIdentity(c1) != BootIdentity(c2)
  {
    var p := if BranchKey in c1 then Revision(c1) + " " + c1[BranchKey] else Revision(c1);
    assert BootIdentity(c1) == p + " " + c1[HashKey];
    assert BootIdentity(c2) == p + " " + c2[HashKey];
    assert BootIdentity(c1)[|p| + 1..] == c1[HashKey];
    assert BootIdentity(c2)[|p| + 1..] == c2[HashKey];
  }

  /** Two builds that differ only in the presence of a hash have different
      identities: optional-token presence is part of the identity. */
  lemma IdentityRecordsHashPresence(c1: map<string, string>, c2: map<string, string>)
    requires Revision(c1) == Revision(c2)
    requires BranchKey in c1 <==> BranchKey in c2
    requires BranchKey in c1 ==> c1[BranchKey] == c2[BranchKey]
    requires HashKey in c1 && HashKey !in c2
    ensures BootIdentity(c1) != BootIdentity(c2)
  {
  }

  /** The identity does not record which optional key a token came from: a
      branch "b", a hash "b" and a revision "a b" all give the identity "a b". */
  lemma IdentityIgnoresTokenOrigin()
    ensures BootIdentity(map[RevisionKey := "a", BranchKey := "b"]) == "a b"
    ensures BootIdentity(map[RevisionKey := "a", HashKey := "b"]) == "a b"
    ensures BootIdentity(map[RevisionKey := "a b"]) == "a b"
  {
  }

  // ---------------------------------------------------------------------------
  // Failure detection

  /** Freshness in milliseconds: because `secsTo` truncates, a marker is fresh
      exactly when it is less than 43201 s old, so 43200.999 s is still fresh. */
  lemma FreshIffMillis(m: Marker, now: int)
    ensures IsFresh(m, now) <==> now - m.mtime < FreshWindowMs
  {
    var d := now - m.mtime;
    var r := SecsTo(m.mtime, now);
    if d >= 0 {
      assert r <= MaxMarkerAge ==> d < 1000 * MaxMarkerAge + 1000;
      assert r > MaxMarkerAge ==> 1000 * r >= 1000 * (MaxMarkerAge + 1);
    }
  }

  /** Detection succeeds exactly when the marker exists, is fresh, can be read
      and holds exactly the current identity. */
  lemma BootFailedRecentlyIff(marker: Option<Marker>, readable: bool,
                              config: map<string, string>, now: int)
    ensures BootFailedRecently(marker, readable, config, now)
            <==> marker.Some? && IsFresh(marker.value, now) && readable
                 && marker.value.content == BootIdentity(config)
  {
  }

  /** No marker: no failure. */
  lemma AbsentMarkerNoFailure(readable: bool, config: map<string, string>, now: int)
    ensures !BootFailedRecently(None, readable, config, now)
  {
  }

  /** A marker more than twelve hours old never signals a failure, whatever it holds. */
  lemma StaleMarkerNoFailure(m: Marker, readable: bool, config: map<string, string>, now: int)
    requires now - m.mtime >= FreshWindowMs
    ensures !BootFailedRecently(Some(m), readable, config, now)
  {
    FreshIffMillis(m, now);
  }

  /** The age bound is inclusive and counts whole seconds: a matching marker
      43200.999 s old, or one modified 5 s "in the future", is still detected;
      one exactly 43201 s old is not. */
  lemma FreshnessBoundary(config: map<string, string>, mtime: int)
    ensures BootFailedRecently(Some(Marker(BootIdentity(config), mtime)), true, config, mtime + 43200999)
    ensures BootFailedRecently(Some(Marker(BootIdentity(config), mtime)), true, config, mtime - 5000)
    ensures !BootFailedRecently(Some(Marker(BootIdentity(config), mtime)), true, config, mtime + 43201000)
  {
  }

  /** A marker whose content differs in any way from the identity never signals a failure. */
  lemma MismatchedMarkerNoFailure(m: Marker, readable: bool, config: map<string, string>, now: int)
    requires m.content != BootIdentity(config)
    ensures !BootFailedRecently(Some(m), readable, config, now)
  {
  }

  /** A marker written from the current identity is detected at any time up to
      twelve hours after it was written (and at any earlier clock reading). */
  lemma WrittenMarkerDetected(config: map<string, string>, written: int, now: int)
    requires now - written < FreshWindowMs
    ensures BootFailedRecently(Some(Marker(BootIdentity(config), written)), true, config, now)
  {
    FreshIffMillis(Marker(BootIdentity(config), written), now);
  }

  /** A marker left by a build with a different hash is not detected. */
  lemma OtherHashNotDetected(c1: map<string, string>, c2: map<string, string>,
                             written: int, now: int)
    requires Revision(c1) == Revision(c2)
    requires BranchKey in c1 <==> BranchKey in c2
    requires BranchKey in c1 ==> c1[BranchKey] == c2[BranchKey]
    requires HashKey in c1 && HashKey in c2 && c1[HashKey] != c2[HashKey]
    ensures !BootFailedRecently(Some(Marker(BootIdentity(c1), written)), true, c2, now)
  {
    IdentitySeparatesHashes(c1, c2);
  }

  /** Consequence of `IdentityIgnoresTokenOrigin`: a marker left by a build with
      branch "b" and no hash counts as a failed boot of a build with hash "b" and
      no branch. */
  lemma OtherTokenOriginDetected(written: int, now: int)
    requires now - written < FreshWindowMs
    ensures var writer := map[RevisionKey := "a", BranchKey := "b"];
            var reader := map[RevisionKey := "a", HashKey := "b"];
            BootFailedRecently(Some(Marker(BootIdentity(writer), written)), true, reader, now)
  {
    IdentityIgnoresTokenOrigin();
    FreshIffMillis(Marker("a b", written), now);
  }
}
