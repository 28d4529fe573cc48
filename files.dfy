/** The archivist (`FileManager`): moves processed log files from the devices
    directory to the backups directory, swallowing a missing source. */
module Files {
  import opened Platform

  /** `os.path.join(a, b)` for a relative b. */
  function Join(a: string, b: string): (p: string)
    ensures |p| >= |b| && p[|p| - |b|..] == b
  {
    if a == "" then b
    else if a[|a| - 1] == '/' then a + b
    else a + "/" + b
  }

  /** The devices and backups directories of a base are distinct paths. */
  lemma DirectoriesDistinct(base: string)
    ensures Join(base, "devices") != Join(base, "backups")
  {
    var d := Join(base, "devices");
    var b := Join(base, "backups");
    assert d[|d| - 7..] == "devices";
    assert b[|b| - 7..] == "backups";
  }

  class FileManager {
    const basePath: string
    const devicesPath: string
    const backupPath: string
    const host: Host

    /** The devices and backups paths are base/devices and base/backups; the
        host stands for those two directories. */
    constructor(basePath: string, host: Host)
      ensures this.basePath == basePath && this.host == host
      ensures devicesPath == Join(basePath, "devices") && backupPath == Join(basePath, "backups")
    {
      this.basePath := basePath;
      this.devicesPath := Join(basePath, "devices");
      this.backupPath := Join(basePath, "backups");
      this.host := host;
    }

    /** `move_to_backup(filename)`: an existing file leaves devices and arrives in
        backups under the same name; a missing one raises nothing, changes no
        directory and is logged. No other file changes place. */
    method MoveToBackup(filename: string)
      modifies host
      ensures filename in old(host.devices) ==>
                && host.devices == old(host.devices) - {filename}
                && host.backups == old(host.backups)[filename := old(host.devices)[filename]]
                && host.journal == old(host.journal) + [Moved(filename)]
      ensures filename !in old(host.devices) ==>
                && host.devices == old(host.devices) && host.backups == old(host.backups)
                && host.journal == old(host.journal) + [MoveFailed(filename)]
      ensures host.reports == old(host.reports) && host.dashboard == old(host.dashboard)
    {
      var moved := host.Move(filename);
      if !moved {
        host.Note(MoveFailed(filename));
      }
    }
  }
}
