/** Path redirection into the temporary base directory
    (src/App/SafeMode.cpp, `_replaceDirs`): the six user-data roles and the
    configuration they end up with. */
module Sandbox {
  import opened BootMarker

  /** The configuration keys `_replaceDirs` overwrites, in the order it visits them. */
  const SandboxRoles: seq<string> :=
    ["UserAppData", "UserConfigPath", "UserCachePath", "AppTempPath", "UserMacroPath", "UserHomePath"]

  /** The directory a role is redirected to: `base + SEP + role + SEP`. */
  function RolePath(base: string, sep: string, role: string): string
  {
    base + sep + role + sep
  }

  /** The configuration after visiting `roles` in order, each visit overwriting
      that role's entry with its path under `base`. */
  function Redirected(config: map<string, string>, base: string, sep: string,
                      roles: seq<string>): map<string, string>
    decreases |roles|
  {
    if roles == [] then config
    else
      var last := roles[|roles| - 1];
      Redirected(config, base, sep, roles[..|roles| - 1])[last := RolePath(base, sep, last)]
  }

  /** Every visited role points under `base`; every other entry is as it was,
      and no other key is added. */
  lemma {:induction false} RedirectedAt(config: map<string, string>, base: string, sep: string,
                                        roles: seq<string>, k: string)
    ensures k in roles ==> k in Redirected(config, base, sep, roles)
                           && Redirected(config, base, sep, roles)[k] == RolePath(base, sep, k)
    ensures k !in roles ==> (k in Redirected(config, base, sep, roles) <==> k in config)
    ensures k !in roles && k in config ==> Redirected(config, base, sep, roles)[k] == config[k]
    decreases |roles|
  {
    if roles != [] {
      var front := roles[..|roles| - 1];
      assert roles == front + [roles[|roles| - 1]];
      RedirectedAt(config, base, sep, front, k);
    }
  }

  /** The keys after redirection: the old keys and the visited roles. */
  lemma RedirectedKeys(config: map<string, string>, base: string, sep: string, roles: seq<string>)
    ensures Redirected(config, base, sep, roles).Keys == config.Keys + set r | r in roles
  {
    forall k ensures k in Redirected(config, base, sep, roles) <==> k in config || k in roles {
      RedirectedAt(config, base, sep, roles, k);
    }
  }

  /** `_replaceDirs` sets exactly the six roles to their paths under `base` and
      leaves every other entry, including the three build keys, unchanged. */
  lemma RedirectSixRoles(config: map<string, string>, base: string, sep: string)
    ensures forall r :: r in SandboxRoles ==>
              r in Redirected(config, base, sep, SandboxRoles)
              && Redirected(config, base, sep, SandboxRoles)[r] == RolePath(base, sep, r)
    ensures forall k :: k !in SandboxRoles ==>
              (k in Redirected(config, base, sep, SandboxRoles) <==> k in config)
    ensures forall k :: k !in SandboxRoles && k in config ==>
              Redirected(config, base, sep, SandboxRoles)[k] == config[k]
  {
    forall k {
      RedirectedAt(config, base, sep, SandboxRoles, k);
    }
  }

  /** Redirection does not touch the build identity, so a marker written before
      it still matches afterwards. */
  lemma RedirectionKeepsIdentity(config: map<string, string>, base: string, sep: string)
    ensures BootIdentity(Redirected(config, base, sep, SandboxRoles)) == BootIdentity(config)
  {
    var r := Redirected(config, base, sep, SandboxRoles);
    RedirectedAt(config, base, sep, SandboxRoles, RevisionKey);
    RedirectedAt(config, base, sep, SandboxRoles, BranchKey);
    RedirectedAt(config, base, sep, SandboxRoles, HashKey);
    IdentityDependsOnlyOnBuildKeys(r, config);
  }

  /** Redirecting twice into the same base is the same as redirecting once. */
  lemma RedirectionIdempotent(config: map<string, string>, base: string, sep: string)
    ensures Redirected(Redirected(config, base, sep, SandboxRoles), base, sep, SandboxRoles)
            == Redirected(config, base, sep, SandboxRoles)
  {
    var once := Redirected(config, base, sep, SandboxRoles);
    var twice := Redirected(once, base, sep, SandboxRoles);
    forall k ensures (k in twice <==> k in once) && (k in twice ==> twice[k] == once[k]) {
      RedirectedAt(config, base, sep, SandboxRoles, k);
      RedirectedAt(once, base, sep, SandboxRoles, k);
    }
  }

  /** Different roles get different directories under the same base. */
  lemma RolePathInjective(base: string, sep: string, a: string, b: string)
    requires RolePath(base, sep, a) == RolePath(base, sep, b)
    ensures a == b
  {
    var n := |base| + |sep|;
    assert |a| == |b|;
    assert RolePath(base, sep, a)[n..n + |a|] == a;
    assert RolePath(base, sep, b)[n..n + |b|] == b;
  }

  /** The six redirected directories are pairwise distinct. */
  lemma SixDistinctDirectories(base: string, sep: string)
    ensures forall i, j :: 0 <= i < j < |SandboxRoles| ==>
              RolePath(base, sep, SandboxRoles[i]) != RolePath(base, sep, SandboxRoles[j])
  {
    forall i, j | 0 <= i < j < |SandboxRoles|
      ensures RolePath(base, sep, SandboxRoles[i]) != RolePath(base, sep, SandboxRoles[j])
    {
      if RolePath(base, sep, SandboxRoles[i]) == RolePath(base, sep, SandboxRoles[j]) {
        RolePathInjective(base, sep, SandboxRoles[i], SandboxRoles[j]);
      }
    }
  }
}
