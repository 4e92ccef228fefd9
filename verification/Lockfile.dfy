/** Options and the `pskills.lock.json` document shared by the installer and the command line. */
module Options {
  datatype Option<+T> = None | Some(value: T)
}

module Lockfile {
  import opened Options

  datatype Provenance = Provenance(externalId: Option<string>, externalSource: Option<string>, feedName: Option<string>)

  datatype LockSkill = LockSkill(
    key: string,
    registry: string,
    reference: string,
    version: string,
    skillName: string,
    artifactDigest: string,
    treeDigest: string,
    owners: seq<string>,
    provenance: Provenance)

  datatype LockPack = LockPack(
    registry: string,
    reference: string,
    version: string,
    manifestDigest: string,
    members: seq<string>)

  datatype LockFile = LockFile(packs: seq<LockPack>, skills: seq<LockSkill>)

  /** The value an absent lockfile reads as. */
  const EMPTY_LOCK := LockFile([], [])
}
