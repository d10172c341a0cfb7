/**
 The verified installation of the core. Hashing is a function left open, downloaded and extracted
 content is whatever the outside delivers, and every change of the core directory leaves a snapshot.
 */
module CoreManager {
  type Blob = string

  /** `Link` is a symbolic link, with what a reader sees through it. */
  datatype Node = Regular(content: Blob, rootOwned: bool) | Link(content: Blob) | Directory(children: map<string, Node>)

  type Entries = map<string, Node>

  datatype Manifest = Manifest(
    binarySize: nat,
    binaryHash: string,
    licenseHash: string,
    archiveSize: nat,
    archiveHash: string,
    assetName: string)

  const CORE := "sing-box"
  const LICENSE := "LICENSE"
  const STAGING_PREFIX := ".staging."
  const DOWNLOAD_ATTEMPTS := 3

  predicate StartsWith(text: string, prefix: string) { prefix <= text }

  datatype Kind = RegularFile | RealDirectory

  predicate IsKind(n: Node, kind: Kind) {
    match kind
    case RegularFile => n.Regular?
    case RealDirectory => n.Directory?
  }

  /** What remove_all leaves of a directory that it cannot remove whole; what is below may be gone as well. */
  predicate Remains(before: Node, after: Node) {
    before.Directory? && after.Directory? && after.children.Keys <= before.children.Keys
  }

  /** Only real directories or regular files with the prefix go, whole or in part, and no symbolic links. */
  method RemoveStaleArtifacts(entries: Entries, prefix: string, kind: Kind) returns (left: Entries)
    ensures left.Keys <= entries.Keys
    ensures forall n | n in left && left[n] != entries[n] ::
      StartsWith(n, prefix) && kind.RealDirectory? && Remains(entries[n], left[n])
    ensures forall n | n in entries && n !in left :: StartsWith(n, prefix) && IsKind(entries[n], kind)
  {
    left := entries;
    var names := entries.Keys;
    while names != {}
      invariant names <= left.Keys <= entries.Keys && forall n | n in names :: left[n] == entries[n]
      invariant forall n | n in left && left[n] != entries[n] ::
        StartsWith(n, prefix) && kind.RealDirectory? && Remains(entries[n], left[n])
      invariant forall n | n in entries && n !in left :: StartsWith(n, prefix) && IsKind(entries[n], kind)
    {
      var name :| name in names;
      names := names - {name};
      if StartsWith(name, prefix) && IsKind(entries[name], kind) {
        left := RemoveEntry(left, name);
      }
    }
  }

  /** remove or remove_all of one entry; it may fail, and on a directory half way. */
  method RemoveEntry(entries: Entries, name: string) returns (left: Entries)
    requires name in entries
    ensures left == entries || left == entries - {name} ||
      (entries[name].Directory? && exists rest | Remains(entries[name], rest) :: left == entries[name := rest])
  {
    var removable: bool, rest: Node := *, *;
    left := if removable then entries - {name}
            else if Remains(entries[name], rest) then entries[name := rest]
            else entries;
  }

  class CoreManager {
    const manifest: Manifest
    const hash: Blob -> string
    var coreDir: Entries
    var cache: Entries
    var history: seq<Entries>
    var executed: seq<Blob>
    var downloads: nat

    predicate Genuine(b: Blob) {
      |b| == manifest.binarySize && hash(b) == manifest.binaryHash
    }

    predicate GenuineLicense(b: Blob) {
      hash(b) == manifest.licenseHash
    }

    /** Everything that was ever executed is the pinned core. */
    ghost predicate Valid()
      reads this
    {
      history != [] && history[|history| - 1] == coreDir && forall i | 0 <= i < |executed| :: Genuine(executed[i])
    }

    ghost predicate Installed()
      reads this
    {
      && CORE in coreDir && coreDir[CORE].Regular? && coreDir[CORE].rootOwned && Genuine(coreDir[CORE].content)
      && LICENSE in coreDir && !coreDir[LICENSE].Directory? && GenuineLicense(coreDir[LICENSE].content)
    }

    constructor (manifest: Manifest, hash: Blob -> string, coreDir: Entries, cache: Entries)
      ensures Valid() && this.coreDir == coreDir && this.manifest == manifest && this.hash == hash
      ensures executed == [] && downloads == 0
    {
      this.manifest, this.hash := manifest, hash;
      this.coreDir, this.cache, history := coreDir, cache, [coreDir];
      executed, downloads := [], 0;
    }

    ghost predicate SameEntry(d0: Entries, d: Entries, name: string) {
      (name in d <==> name in d0) && (name in d0 ==> d[name] == d0[name])
    }

    /** Both installed files are as they were, or the pinned ones. */
    ghost predicate Acceptable(d0: Entries, d: Entries) {
      && (SameEntry(d0, d, CORE) || (CORE in d && d[CORE].Regular? && Genuine(d[CORE].content)))
      && (SameEntry(d0, d, LICENSE)
          || (LICENSE in d && !d[LICENSE].Directory? && GenuineLicense(d[LICENSE].content)))
    }

    ghost predicate AlwaysAcceptable(d0: Entries, from: nat)
      reads this
    {
      from <= |history| && forall k | from <= k < |history| :: Acceptable(d0, history[k])
    }

    method Become(next: Entries)
      requires Valid()
      modifies this`coreDir, this`history
      ensures Valid() && coreDir == next && history == old(history) + [next]
    {
      coreDir := next;
      history := history + [next];
    }

    /** sha256File: fails on a missing file, or when the helper does; `faults` says whether it may in this call. */
    method Sha256(node: Node, faults: bool) returns (digest: string, ok: bool)
      ensures ok ==> !node.Directory? && digest == hash(node.content)
      ensures !node.Directory? && !faults ==> ok
    {
      var fault: bool := *;
      if node.Directory? || (fault && faults) {
        return "", false;
      }
      return hash(node.content), true;
    }

    /** Size, then hash, and only then the version command of the file itself. */
    method VerifyCandidate(entries: Entries, name: string, faults: bool) returns (ok: bool)
      requires Valid()
      modifies this`executed
      ensures Valid() && old(executed) <= executed
      ensures ok ==> name in entries && entries[name].Regular? && entries[name].rootOwned && Genuine(entries[name].content)
      ensures !faults && name in entries && entries[name].Regular? && entries[name].rootOwned ==>
        (Genuine(entries[name].content) ==> ok)
    {
      if name !in entries || !entries[name].Regular? || !entries[name].rootOwned
         || |entries[name].content| != manifest.binarySize {
        return false;
      }
      var digest, hashed := Sha256(entries[name], faults);
      if !hashed || digest != manifest.binaryHash {
        return false;
      }
      executed := executed + [entries[name].content];
      var versionMatches: bool := *;
      ok := versionMatches || !faults;
    }

    method VerifyInstalledCore(faults: bool) returns (ok: bool)
      requires Valid()
      modifies this`executed
      ensures Valid() && old(executed) <= executed
      ensures ok ==> Installed()
      ensures !faults && Installed() ==> ok
    {
      if LICENSE !in coreDir {
        return false;
      }
      var digest, hashed := Sha256(coreDir[LICENSE], faults);
      if !hashed || digest != manifest.licenseHash {
        return false;
      }
      ok := VerifyCandidate(coreDir, CORE, faults);
    }

    /** An installed core is used as it is; otherwise it is downloaded at most three times and replaced. */
    method EnsureCore(suffix: string, faults: bool) returns (ok: bool)
      requires Valid()
      modifies this
      ensures Valid() && old(executed) <= executed && old(history) <= history
      ensures ok ==> Installed()
      ensures AlwaysAcceptable(old(coreDir), |old(history)|)
      ensures downloads <= old(downloads) + DOWNLOAD_ATTEMPTS
      ensures !faults && old(Installed()) ==> ok && downloads == old(downloads) && coreDir == old(coreDir)
    {
      ok := VerifyInstalledCore(faults);
      if !ok {
        ok := RepairCore(suffix, faults);
      }
    }

    method RepairCore(suffix: string, faults: bool) returns (ok: bool)
      requires Valid()
      modifies this
      ensures Valid() && old(executed) <= executed && old(history) <= history
      ensures ok ==> Installed()
      ensures AlwaysAcceptable(old(coreDir), |old(history)|)
      ensures downloads <= old(downloads) + DOWNLOAD_ATTEMPTS
    {
      ghost var d0, from := coreDir, |history|;
      var staging, archive := STAGING_PREFIX + suffix, manifest.assetName + ".part." + suffix;
      StagingIsNeither(suffix);
      ok := MakeStaging(staging);
      if !ok {
        return;
      }
      var extracted;
      ok, extracted := DownloadAndExtract(archive, faults);
      Become(coreDir[staging := Directory(extracted)]);
      if ok {
        ok := Install(d0, from, staging, extracted, faults);
      }
      if ok {
        ok := VerifyInstalledCore(faults);
      }
      CleanUp(d0, from, staging, archive);
    }

    /** Leftovers of interrupted repairs go, then the staging directory is made. */
    method MakeStaging(staging: string) returns (ok: bool)
      requires Valid() && staging != CORE && staging != LICENSE
      modifies this`coreDir, this`cache, this`history
      ensures Valid() && old(history) <= history
      ensures AlwaysAcceptable(old(coreDir), |old(history)|) && Acceptable(old(coreDir), coreDir)
      ensures ok ==> staging in coreDir
    {
      var directories: bool := *;
      if !directories {
        return false;
      }
      StagingIsNeither("");
      var tidied := RemoveStaleArtifacts(coreDir, STAGING_PREFIX, RealDirectory);
      assert SameEntry(coreDir, tidied, CORE) && SameEntry(coreDir, tidied, LICENSE);
      Become(tidied);
      cache := RemoveStaleArtifacts(cache, manifest.assetName + ".part.", RegularFile);
      if staging in coreDir {
        return false;
      }
      Become(coreDir[staging := Directory(map[])]);
      ok := true;
    }

    /** Neither installed file is taken for a staging directory. */
    lemma StagingIsNeither(suffix: string)
      ensures STAGING_PREFIX + suffix != CORE && STAGING_PREFIX + suffix != LICENSE
      ensures !StartsWith(CORE, STAGING_PREFIX) && !StartsWith(LICENSE, STAGING_PREFIX)
    {
      assert (STAGING_PREFIX + suffix)[0] == '.' && CORE[0] == 's' && LICENSE[0] == 'L';
    }

    /** The temporary trees go when the repair ends; a removal may fail. */
    method CleanUp(ghost d0: Entries, ghost from: nat, staging: string, archive: string)
      requires Valid() && AlwaysAcceptable(d0, from) && Acceptable(d0, coreDir) && staging != CORE && staging != LICENSE
      modifies this
      ensures Valid() && AlwaysAcceptable(d0, from) && old(history) <= history
      ensures executed == old(executed) && downloads == old(downloads)
      ensures old(Installed()) ==> Installed()
    {
      if staging in coreDir {
        var left := RemoveEntry(coreDir, staging);
        Become(left);
      }
      cache := cache - {archive};
    }

    /** The download loop, the archive checks and the extraction, which may stop half way. */
    method DownloadAndExtract(archive: string, faults: bool) returns (ok: bool, extracted: Entries)
      requires Valid()
      modifies this`cache, this`downloads
      ensures Valid() && downloads <= old(downloads) + DOWNLOAD_ATTEMPTS
    {
      ok, extracted := false, map[];
      var attempt, fetched := 0, false;
      while attempt < DOWNLOAD_ATTEMPTS && !fetched
        invariant Valid() && attempt <= DOWNLOAD_ATTEMPTS && downloads == old(downloads) + attempt
      {
        cache := cache - {archive};
        var delivered: Node, exitZero: bool := *, *;
        cache := cache[archive := delivered];
        downloads := downloads + 1;
        fetched := exitZero;
        attempt := attempt + 1;
      }
      if !fetched || archive !in cache || !cache[archive].Regular? || !cache[archive].rootOwned
         || |cache[archive].content| != manifest.archiveSize {
        return;
      }
      var digest, hashed := Sha256(cache[archive], faults);
      if !hashed || digest != manifest.archiveHash {
        return;
      }
      ok, extracted := *, *;
    }

    /** The staged files are verified before the two renames; between them only the license is new. */
    method Install(ghost d0: Entries, ghost from: nat, staging: string, extracted: Entries, faults: bool)
      returns (ok: bool)
      requires Valid() && AlwaysAcceptable(d0, from) && Acceptable(d0, coreDir)
      requires staging != CORE && staging != LICENSE && staging in coreDir
      modifies this
      ensures Valid() && AlwaysAcceptable(d0, from) && Acceptable(d0, coreDir)
      ensures old(executed) <= executed && old(history) <= history && downloads == old(downloads)
    {
      var verified := VerifyStaged(extracted, faults);
      if verified {
        ok := MoveBoth(d0, from, staging, extracted);
      } else {
        ok := false;
      }
    }

    /** The two renames; each may fail, and the run may stop between them. */
    method MoveBoth(ghost d0: Entries, ghost from: nat, staging: string, extracted: Entries) returns (ok: bool)
      requires Valid() && AlwaysAcceptable(d0, from) && Acceptable(d0, coreDir)
      requires staging != CORE && staging != LICENSE && staging in coreDir
      requires CORE in extracted && extracted[CORE].Regular? && Genuine(extracted[CORE].content)
      requires LICENSE in extracted && !extracted[LICENSE].Directory? && GenuineLicense(extracted[LICENSE].content)
      modifies this
      ensures Valid() && AlwaysAcceptable(d0, from) && Acceptable(d0, coreDir)
      ensures executed == old(executed) && old(history) <= history && downloads == old(downloads)
    {
      var licenseMoved: bool := *;
      if !licenseMoved {
        return false;
      }
      Become(coreDir[LICENSE := extracted[LICENSE]][staging := Directory(extracted - {LICENSE})]);
      var coreMoved: bool := *;
      if !coreMoved {
        return false;
      }
      Become(coreDir[CORE := extracted[CORE]][staging := Directory(extracted - {LICENSE, CORE})]);
      ok := true;
    }

    method VerifyStaged(extracted: Entries, faults: bool) returns (ok: bool)
      requires Valid()
      modifies this`executed
      ensures Valid() && old(executed) <= executed
      ensures ok ==> CORE in extracted && extracted[CORE].Regular? && Genuine(extracted[CORE].content)
      ensures ok ==>
        LICENSE in extracted && !extracted[LICENSE].Directory? && GenuineLicense(extracted[LICENSE].content)
    {
      if CORE !in extracted {
        return false;
      }
      ok := VerifyCandidate(extracted, CORE, faults);
      if !ok || LICENSE !in extracted {
        return false;
      }
      var digest, hashed := Sha256(extracted[LICENSE], faults);
      ok := hashed && digest == manifest.licenseHash;
    }

    /** What start() runs afterwards: `check` and then `run`, of the file that was verified, in at most two rounds. */
    method EnsureThenExecute(suffix: string, rounds: nat, faults: bool) returns (ok: bool)
      requires Valid() && rounds <= 2
      modifies this
      ensures Valid() && old(executed) <= executed && AlwaysAcceptable(old(coreDir), |old(history)|)
      ensures ok ==> Installed()
    {
      ok := EnsureCore(suffix, faults);
      if !ok {
        return;
      }
      label Ensured:
      for i := 0 to rounds
        invariant Valid() && Installed() && old(executed) <= executed
        invariant history == old@Ensured(history) && coreDir == old@Ensured(coreDir)
      {
        executed := executed + [coreDir[CORE].content, coreDir[CORE].content];
      }
    }

    /**
     After a success the next call finds the core and downloads nothing, if nothing fails to read or run it
     in that call, whatever failed in the first.
     */
    method EnsureTwice(suffix: string, faults: bool, again: string, faultsAgain: bool)
      returns (first: bool, between: nat, second: bool)
      requires Valid()
      modifies this
      ensures Valid() && between <= old(downloads) + DOWNLOAD_ATTEMPTS
      ensures first && !faultsAgain ==> second && Installed() && downloads == between
    {
      first := EnsureCore(suffix, faults);
      between := downloads;
      second := EnsureCore(again, faultsAgain);
    }
  }
}
