/**
 secretfile.rs: a secret is replaced by writing a temporary file, syncing it and renaming it over
 the target. The file system's effects, one call after another, and the calls of `replace_secret`
 in their order.
 */
module SecretFile {
  import opened Bytes

  type Content = seq<byte>
  type FileId = nat
  type Pid = nat

  /** The target, and the temporary name a write takes from its process and the counter. */
  datatype Name = Target | Temp(pid: Pid, n: nat)

  /** `durable` when everything in it has been synced. */
  datatype File = File(content: Content, durable: bool)

  /**
   A directory and its files, numbered in order of creation. `mayBe` holds what the target's entry may be after a crash: every
   entry it had since the directory was last synced.
   */
  datatype Disk = Disk(files: map<FileId, File>, next: FileId, dir: map<Name, FileId>, mayBe: set<Option<FileId>>)

  function Entry(d: Disk, name: Name): Option<FileId> {
    if name in d.dir then Some(d.dir[name]) else None
  }

  /** What a reader that opens the target now finds. */
  function Seen(d: Disk): Option<Content> {
    if Target in d.dir && d.dir[Target] in d.files then Some(d.files[d.dir[Target]].content) else None
  }

  // ---- the calls ------------------------------------------------------------------------------

  /** open with create_new, on a name that is free. */
  function CreateNew(d: Disk, name: Name): Disk
    requires name != Target
  {
    d.(files := d.files[d.next := File([], false)], next := d.next + 1, dir := d.dir[name := d.next])
  }

  function Append(d: Disk, id: FileId, bytes: Content): Disk
    requires id in d.files
  {
    d.(files := d.files[id := File(d.files[id].content + bytes, false)])
  }

  function SyncFile(d: Disk, id: FileId): Disk
    requires id in d.files
  {
    d.(files := d.files[id := File(d.files[id].content, true)])
  }

  /** rename: the target's entry becomes the temporary one's, in one step. */
  function RenameOver(d: Disk, name: Name): Disk
    requires name in d.dir && name != Target
  {
    Disk(d.files, d.next, (d.dir - {name})[Target := d.dir[name]], d.mayBe + {Some(d.dir[name])})
  }

  function Remove(d: Disk, name: Name): Disk
    requires name != Target
  {
    d.(dir := d.dir - {name})
  }

  function SyncDir(d: Disk): Disk {
    d.(mayBe := {Entry(d, Target)})
  }

  // ---- replace_secret, alone -------------------------------------------------------------------

  /** Which call fails, if any; `written` bytes are on the file when write_all gives up. */
  datatype Fault = NoFault | AtOpen | AtWrite(written: nat) | AtSync | AtRename

  class Directory {
    var disk: Disk
    var seq_: nat       // SEQ, shared by all writes of the process
    const pid: Pid

    constructor (disk0: Disk, pid0: Pid)
      ensures disk == disk0 && seq_ == 0 && pid == pid0
    {
      disk, seq_, pid := disk0, 0, pid0;
    }

    /**
     A write that nothing interrupts. It succeeds exactly when no call fails and its temporary
     name is free; then the target is wholly the new content, synced. Otherwise the target is as
     it was. Either way the temporary name is gone and no other name has moved.
     */
    method ReplaceSecret(contents: Content, fault: Fault, dirSynced: bool) returns (ok: bool)
      requires forall id | id in disk.files :: id < disk.next
      modifies this
      ensures forall id | id in disk.files :: id < disk.next
      ensures ok <==> fault.NoFault? && Temp(pid, old(seq_)) !in old(disk.dir)
      ensures seq_ == old(seq_) + 1
      ensures ok ==> Seen(disk) == Some(contents) && disk.files[disk.dir[Target]].durable
      ensures ok && dirSynced ==> disk.mayBe == {Entry(disk, Target)}
      ensures !ok ==> Entry(disk, Target) == old(Entry(disk, Target)) && disk.mayBe == old(disk.mayBe)
      ensures forall id | id in old(disk.files) :: id in disk.files && disk.files[id] == old(disk.files[id])
      ensures Temp(pid, old(seq_)) !in disk.dir
      ensures forall name | name != Target && name != Temp(pid, old(seq_)) :: Entry(disk, name) == old(Entry(disk, name))
    {
      var tmp := Temp(pid, seq_);
      seq_ := seq_ + 1;
      if fault.AtOpen? || tmp in disk.dir {
        disk := Remove(disk, tmp);
        return false;
      }
      var id := disk.next;
      disk := CreateNew(disk, tmp);
      if fault.AtWrite? {
        disk := Append(disk, id, contents[..if fault.written < |contents| then fault.written else |contents|]);
        disk := Remove(disk, tmp);
        return false;
      }
      disk := Append(disk, id, contents);
      if fault.AtSync? {
        disk := Remove(disk, tmp);
        return false;
      }
      disk := SyncFile(disk, id);
      if fault.AtRename? {
        disk := Remove(disk, tmp);
        return false;
      }
      disk := RenameOver(disk, tmp);
      assert disk.files[id].content == contents;
      if dirSynced {
        disk := SyncDir(disk);
      }
      ok := true;
    }
  }
}
