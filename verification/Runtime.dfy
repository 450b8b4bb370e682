/** validate_runtime_identity and the bootstrap audit line: which runtime a capture names, and what it must append. */
module Runtime {
  import opened Text
  import opened Records
  import opened Inventory

  /** config/native-ephemeral-bootstrap.json. */
  datatype Bootstrap = Bootstrap(launcherSha: string, launcherBytes: nat)

  /** The two runtime contracts; `metadata` is uid, gid, mode, device, inode and size of the launcher. */
  datatype Identity = Trusted | Ephemeral(launcherSha: string, metadata: seq<string>)

  const TRUSTED_LOADER: string := "loader=/usr/bin/perl"
  const EPHEMERAL_LOADER: string := "loader=DEGRADED_ASSURANCE_EPHEMERAL_BOOTSTRAP_V1"
  const TRANSPORT: string := "transport=sealed_memfd_execveat_v1"
  const AUDIT_TAG: string := "EPHEMERAL_BOOTSTRAP_AUDIT_V2"
  const IDENTITY_CAP: nat := 2048

  predicate Ascii(s: string) { forall i | 0 <= i < |s| :: s[i] as int < 128 }

  /** uid:gid:mode:device:inode:size. */
  predicate MetadataText(s: string) {
    var f := Split(s, ':');
    && |f| == 6 && NumberText(f[0]) && NumberText(f[1]) && ModeText(f[2]) && NumberText(f[3]) && NumberText(f[4])
    && NumberText(f[5])
  }

  predicate Keyed(s: string, key: string) { key <= s }

  predicate TrustedIdentity(f: Fields, helperSha: string) {
    && |f| == 5 && f[0] == TRUSTED_LOADER && f[3] == "helper_sha=" + helperSha && HexDigest(helperSha)
    && f[4] == TRANSPORT
    && Keyed(f[1], "loader_sha=") && HexDigest(f[1][|"loader_sha="|..])
    && Keyed(f[2], "loader_meta=") && MetadataText(f[2][|"loader_meta="|..])
  }

  /** The launcher is the pinned one, private to its owner, and of the pinned size. */
  predicate EphemeralIdentity(f: Fields, helperSha: string, pin: Bootstrap) {
    && |f| == 5 && f[0] == EPHEMERAL_LOADER && f[3] == "helper_sha=" + helperSha && HexDigest(helperSha)
    && f[4] == TRANSPORT
    && f[1] == "launcher_sha=" + pin.launcherSha && HexDigest(pin.launcherSha)
    && Keyed(f[2], "launcher_meta=") && MetadataText(f[2][|"launcher_meta="|..])
    && var m := Split(f[2][|"launcher_meta="|..], ':');
       && (forall i | 0 <= i < 6 :: CanonicalDecimal(m[i])) && m[2] == "700" && ParseDecimal(m[5]) == pin.launcherBytes
  }

  /** validate_runtime_identity. */
  function IdentityOf(hex: string, digest: string, helperSha: string, sha: string -> string,
    pin: Bootstrap): Option<Identity> {
    if !HexText(hex) || hex == "" || |hex| > IDENTITY_CAP || !Ascii(Unhex(hex)) || sha(Unhex(hex)) != digest then None
    else
      var f := Split(Unhex(hex), '|');
      if TrustedIdentity(f, helperSha) then Some(Trusted)
      else if EphemeralIdentity(f, helperSha, pin)
        then Some(Ephemeral(pin.launcherSha, Split(f[2][|"launcher_meta="|..], ':')))
      else None
  }

  /** The one line an ephemeral capture appends: operation, launcher, identities and cleanup, all bound to the header. */
  predicate AuditOk(line: string, operation: string, identity: Identity, identitySha: string, sha: string -> string,
    pin: Bootstrap) {
    var a := Split(line, TAB);
    && identity.Ephemeral? && |a| == 9 && a[0] == AUDIT_TAG && a[1] == operation && a[8] == "CLEANUP_VERIFIED"
    && HexDigest(a[5]) && HexDigest(a[6]) && HexDigest(a[7])
    && a[2] == pin.launcherSha && a[3] == Decimal(pin.launcherBytes) && a[4] == Join(identity.metadata, ':')
    && a[5] == identitySha
    && a[6] == sha(Join(identity.metadata, ':') + [0 as char] + identity.launcherSha)
  }

  /** What may follow the records: nothing under the trusted contract, exactly the audit line under the ephemeral one. */
  predicate TrailingOk(trailing: seq<string>, operation: string, identity: Identity, identitySha: string,
    sha: string -> string,
                       pin: Bootstrap)
  {
    if identity.Trusted? then trailing == []
    else |trailing| == 1 && AuditOk(trailing[0], operation, identity, identitySha, sha, pin)
  }

  /** An ephemeral capture has one audit line up to the identity of the private stage, which nothing binds. */
  lemma AuditDetermined(a: string, b: string, operation: string, identity: Identity, identitySha: string,
    sha: string -> string,
                        pin: Bootstrap)
    requires AuditOk(a, operation, identity, identitySha, sha, pin)
      && AuditOk(b, operation, identity, identitySha, sha, pin)
    ensures a == b <==> Split(a, TAB)[7] == Split(b, TAB)[7]
  {
    JoinSplit(a, TAB);
    JoinSplit(b, TAB);
    var f, g := Split(a, TAB), Split(b, TAB);
    hide Split, Join, HexDigest, Decimal;
    if f[7] == g[7] {
      assert forall i | 0 <= i < 9 :: f[i] == g[i];
      assert f == g;
    }
  }
}
