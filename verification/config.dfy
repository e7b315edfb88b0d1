/** The configuration values the export table, the catalog and its text form share
    (src/core/config.hpp, src/core/catalog.hpp). */
module Config {

  datatype Result<+T> = Ok(value: T) | Err {
    predicate IsFailure() { Err? }
    function PropagateFailure<U>(): Result<U>
      requires Err?
    {
      Err
    }
    function Extract(): T
      requires Ok?
    {
      value
    }
  }

  datatype Squash = NoSquash | RootSquash | AllSquash

  /** The per-export settings that diff_catalog calls dynamic. */
  datatype Dynamic = Dynamic(
    clients: seq<string>,
    readBps: nat, writeBps: nat, iops: nat,
    readonly: bool, securePorts: bool, strictCookies: bool,
    squash: Squash, anonUid: nat, anonGid: nat)

  datatype ExportConfig = ExportConfig(
    path: string, fsid: nat, backend: string, nodes: seq<string>, dyn: Dynamic,
    // the [export.<backend>] subtable
    values: map<string, string>)

  /** Strips trailing slashes but keeps a lone "/". */
  function NormalizePath(path: string): (r: string)
    ensures r <= path && |r| >= (if path == "" then 0 else 1)
    ensures |r| > 1 ==> r[|r| - 1] != '/'
    ensures forall i | |r| <= i < |path| :: path[i] == '/'
    decreases |path|
  {
    if |path| > 1 && path[|path| - 1] == '/' then NormalizePath(path[..|path| - 1]) else path
  }
}
