/** Who is the master of a device (drm_auth.c): open, set-master, drop-master and release, each of which runs under the
    device's master_mutex. Leases are left out, so a master has no lessor and owns itself. */
module MasterOwnership {
  import opened Common

  /** struct drm_file; masters are named by numbers. */
  datatype File = File(master: Option<int>, isMaster: bool, wasMaster: bool)

  /** The open files that point at master `m`. */
  function Users(files: map<int, File>, m: int): set<int> {
    set f | f in files && files[f].master == Some(m)
  }

  predicate Known(refs: map<int, int>, m: Option<int>) {
    m.Some? ==> m.value in refs
  }

  /** A master is referenced once by each file that points at it, and once if it is the current master. */
  ghost predicate CountsOk(files: map<int, File>, refs: map<int, int>, master: Option<int>) {
    forall m :: m in refs ==> refs[m] > 0 && refs[m] == |Users(files, m)| + (if master == Some(m) then 1 else 0)
  }

  /** No pointer leads to a master that is gone. */
  ghost predicate PointersOk(files: map<int, File>, refs: map<int, int>, master: Option<int>, next: int) {
    && (forall f :: f in files ==> Known(refs, files[f].master)) && Known(refs, master)
    && (forall m :: m in refs ==> m < next)
  }

  /** A file that owns a master is the only one to own it, and the current master is owned by an open file. */
  ghost predicate OwnersOk(files: map<int, File>, master: Option<int>) {
    && (forall f :: f in files && files[f].isMaster ==> files[f].master.Some? && files[f].wasMaster)
    && (forall f, g :: f in files && g in files && files[f].isMaster && files[g].isMaster && f != g ==>
          files[f].master != files[g].master)
    && (master.Some? ==> exists f :: Owns(files, f, master))
  }

  predicate Owns(files: map<int, File>, f: int, m: Option<int>) {
    f in files && files[f].isMaster && files[f].master == m
  }

  ghost predicate Sound(files: map<int, File>, refs: map<int, int>, master: Option<int>, next: int) {
    CountsOk(files, refs, master) && PointersOk(files, refs, master, next) && OwnersOk(files, master)
  }

  /** drm_is_current_master_locked */
  predicate IsCurrent(files: map<int, File>, master: Option<int>, f: int) {
    f in files && files[f].isMaster && files[f].master == master
  }

  /** At most one file is the current master. */
  lemma OneCurrentMaster(files: map<int, File>, refs: map<int, int>, master: Option<int>, next: int, f: int, g: int)
    requires Sound(files, refs, master, next) && IsCurrent(files, master, f) && IsCurrent(files, master, g)
    ensures f == g && master.Some?
  {}

  // ----- Reference counting -----

  /** drm_master_put: the last reference destroys the master. */
  function Put(refs: map<int, int>, m: int): map<int, int>
    requires m in refs
  {
    if refs[m] == 1 then refs - {m} else refs[m := refs[m] - 1]
  }

  lemma UsersAfter(files: map<int, File>, f: int, file: File, m: int)
    ensures |Users(files[f := file], m)| == |Users(files, m) - {f}| + (if file.master == Some(m) then 1 else 0)
  {
    var others := Users(files, m) - {f};
    if file.master == Some(m) {
      assert Users(files[f := file], m) == others + {f};
    } else {
      assert Users(files[f := file], m) == others;
    }
  }

  lemma UsersBefore(files: map<int, File>, f: int, m: int)
    ensures |Users(files, m)| == |Users(files, m) - {f}| + (if f in files && files[f].master == Some(m) then 1 else 0)
    ensures Users(files - {f}, m) == Users(files, m) - {f}
  {
    var others := Users(files, m) - {f};
    if f in files && files[f].master == Some(m) {
      assert Users(files, m) == others + {f};
    } else {
      assert Users(files, m) == others;
    }
  }

  /** A file gets a new master, which becomes current, and lets go of the one it had. */
  function NewMaster(refs: map<int, int>, previous: Option<int>, m: int): map<int, int>
    requires previous.Some? ==> previous.value in refs
  {
    var refs1 := refs[m := 2];
    if previous.Some? then Put(refs1, previous.value) else refs1
  }

  lemma NewMasterIsSound(files: map<int, File>, refs: map<int, int>, next: int, f: int)
    requires Sound(files, refs, None, next) && f in files && !files[f].isMaster
    ensures Sound(files[f := File(Some(next), true, true)], NewMaster(refs, files[f].master, next), Some(next), next + 1)
  {
    var files' := files[f := File(Some(next), true, true)];
    var refs' := NewMaster(refs, files[f].master, next);
    forall m | m in refs'
      ensures refs'[m] > 0 && refs'[m] == |Users(files', m)| + (if m == next then 1 else 0)
    {
      UsersAfter(files, f, File(Some(next), true, true), m);
      UsersBefore(files, f, m);
      if m == next {
        NoUsers(files, refs, None, next, next);
      }
    }
    forall g | g in files'
      ensures Known(refs', files'[g].master)
    {
      assert Known(refs, files[g].master) || g == f;
      if g != f && files[g].master.Some? && files[g].master == files[f].master {
        StillUsed(files, refs, None, next, f, g);
      }
    }
    assert Owns(files', f, Some(next));
  }

  lemma NoUsers(files: map<int, File>, refs: map<int, int>, master: Option<int>, next: int, m: int)
    requires PointersOk(files, refs, master, next) && m !in refs
    ensures Users(files, m) == {}
  {
    forall f | f in files
      ensures files[f].master != Some(m)
    {
      assert Known(refs, files[f].master);
    }
  }

  /** A master that another file points at survives. */
  lemma StillUsed(files: map<int, File>, refs: map<int, int>, master: Option<int>, next: int, f: int, g: int)
    requires CountsOk(files, refs, master) && PointersOk(files, refs, master, next)
    requires f in files && g in files && f != g && files[g].master.Some? && files[g].master == files[f].master
    ensures files[g].master.value in refs && refs[files[g].master.value] >= 2
  {
    var m: int := files[g].master.value;
    assert Known(refs, files[g].master);
    var pair := {f, g};
    assert pair <= Users(files, m);
    assert Users(files, m) == pair + (Users(files, m) - pair);
    assert |pair| == 2;
  }

  /** A file that opens while there is a current master joins it. */
  lemma JoinIsSound(files: map<int, File>, refs: map<int, int>, m: int, next: int, f: int)
    requires Sound(files, refs, Some(m), next) && f in files && files[f].master == None && !files[f].isMaster
    ensures m in refs
    ensures Sound(files[f := files[f].(master := Some(m))], refs[m := refs[m] + 1], Some(m), next)
  {
    var file := files[f].(master := Some(m));
    forall k | k in refs
      ensures |Users(files[f := file], k)| == |Users(files, k)| + (if k == m then 1 else 0)
    {
      UsersAfter(files, f, file, k);
      UsersBefore(files, f, k);
    }
    var g :| Owns(files, g, Some(m));
    assert Owns(files[f := file], g, Some(m));
  }

  /** The current master steps down; its file still points at it. */
  lemma DropIsSound(files: map<int, File>, refs: map<int, int>, m: int, next: int)
    requires Sound(files, refs, Some(m), next)
    ensures m in refs && refs[m] >= 2
    ensures Sound(files, Put(refs, m), None, next)
  {
    var g :| Owns(files, g, Some(m));
    assert g in Users(files, m);
  }

  /** The owner of a master makes it current again. */
  lemma ReclaimIsSound(files: map<int, File>, refs: map<int, int>, next: int, f: int, m: int)
    requires Sound(files, refs, None, next) && f in files && files[f].isMaster && files[f].master == Some(m)
    ensures m in refs
    ensures Sound(files[f := files[f].(wasMaster := true)], refs[m := refs[m] + 1], Some(m), next)
  {
    var file := files[f].(wasMaster := true);
    assert Known(refs, files[f].master);
    forall k | k in refs
      ensures |Users(files[f := file], k)| == |Users(files, k)|
    {
      UsersAfter(files, f, file, k);
      UsersBefore(files, f, k);
    }
    assert Owns(files[f := file], f, Some(m));
  }

  /** The references after file `f` is closed. */
  function Closed(refs: map<int, int>, m: Option<int>): map<int, int>
    requires Known(refs, m)
  {
    if m.Some? then Put(refs, m.value) else refs
  }

  lemma CloseIsSound(files: map<int, File>, refs: map<int, int>, master: Option<int>, next: int, f: int)
    requires Sound(files, refs, master, next) && f in files && !(master.Some? && IsCurrent(files, master, f))
    ensures Known(refs, files[f].master)
    ensures Sound(files - {f}, Closed(refs, files[f].master), master, next)
  {
    var files', refs' := files - {f}, Closed(refs, files[f].master);
    forall m | m in refs'
      ensures refs'[m] > 0 && refs'[m] == |Users(files', m)| + (if master == Some(m) then 1 else 0)
    {
      UsersBefore(files, f, m);
    }
    forall g | g in files'
      ensures Known(refs', files'[g].master)
    {
      assert Known(refs, files[g].master);
      if files[g].master.Some? && files[g].master == files[f].master {
        StillUsed(files, refs, master, next, f, g);
      }
    }
    if master.Some? {
      var g :| Owns(files, g, master);
      assert Owns(files', g, master);
      if files[f].master == master {
        StillUsed(files, refs, master, next, f, g);
      }
    }
  }

  // ----- The device -----

  class Device {
    var files: map<int, File>      // the open files
    var master: Option<int>        // dev->master
    var refs: map<int, int>        // the masters that exist, with their reference counts
    var next: int                  // the name of the next master

    ghost predicate Valid()
      reads this
    {
      Sound(files, refs, master, next)
    }

    constructor ()
      ensures Valid() && files == map[] && master == None && refs == map[]
    {
      files, master, refs, next := map[], None, map[], 0;
    }

    /** drm_new_set_master */
    method NewSetMaster(f: int, allocOk: bool) returns (ret: int)
      requires Valid() && master == None && f in files && !files[f].isMaster
      modifies this
      ensures Valid() && ret == if allocOk then 0 else ENOMEM
      ensures if ret == 0 then master == Some(old(next)) && files == old(files)[f := File(master, true, true)]
              else master == None && files == old(files) && refs == old(refs)
    {
      if !allocOk {
        return ENOMEM;
      }
      NewMasterIsSound(files, refs, next, f);
      var previous := files[f].master;
      var m := next;
      next := next + 1;
      // the references of the file and of the device
      refs := refs[m := 2];
      files := files[f := File(Some(m), true, true)];
      master := Some(m);
      if previous.Some? {
        refs := Put(refs, previous.value);
      }
      ret := 0;
    }

    /** drm_master_open: the first file becomes master, the others join the current one. */
    method Open(f: int, allocOk: bool) returns (ret: int)
      requires Valid() && f !in files
      modifies this
      ensures Valid() && ret == if old(master) == None && !allocOk then ENOMEM else 0
      ensures files.Keys == old(files).Keys + {f} && forall g :: g in old(files) ==> files[g] == old(files)[g]
      ensures ret == 0 ==> files[f].master == master && master.Some?
      ensures files[f].isMaster <==> ret == 0 && old(master) == None
      ensures files[f].wasMaster == files[f].isMaster && (ret != 0 ==> files[f].master == None)
      ensures old(master).Some? ==> master == old(master)
    {
      NewFileIsSound(files, refs, master, next, f);
      files := files[f := File(None, false, false)];
      if master == None {
        ret := NewSetMaster(f, allocOk);
      } else {
        JoinIsSound(files, refs, master.value, next, f);
        refs := refs[master.value := refs[master.value] + 1];
        files := files[f := files[f].(master := master)];
        ret := 0;
      }
    }

    /** drm_master_check_perm: a former master may do it from the same process, an administrator always. */
    predicate Permitted(f: int, sameProcess: bool, admin: bool)
      requires f in files
      reads this
    {
      (files[f].wasMaster && sameProcess) || admin
    }

    /** drm_setmaster_ioctl */
    method SetMaster(f: int, sameProcess: bool, admin: bool, allocOk: bool) returns (ret: int)
      requires Valid() && f in files
      modifies this
      ensures Valid()
      ensures ret == if !((old(files)[f].wasMaster && sameProcess) || admin) then EACCES
                     else if old(master).Some? then
                       if old(files)[f].isMaster && old(files)[f].master == old(master) then 0 else EBUSY
                     else if old(files)[f].master == None then EINVAL
                     else if !old(files)[f].isMaster && !allocOk then ENOMEM
                     else 0
      ensures ret == 0 ==> f in files && files[f].isMaster && files[f].wasMaster && files[f].master == master && master.Some?
      ensures ret == 0 && old(master) == None ==>
                if old(files)[f].isMaster then files == old(files)
                else files[f].master == Some(old(next)) && files[f].master.value !in old(refs)
      ensures ret != 0 || old(master).Some? ==> files == old(files) && master == old(master) && refs == old(refs)
      ensures files.Keys == old(files).Keys && forall g :: g in files && g != f ==> files[g] == old(files)[g]
    {
      if !Permitted(f, sameProcess, admin) {
        return EACCES;
      }
      if IsCurrent(files, master, f) {
        return 0;
      }
      if master.Some? {
        return EBUSY;
      }
      if files[f].master == None {
        return EINVAL;
      }
      if !files[f].isMaster {
        ret := NewSetMaster(f, allocOk);
        return;
      }
      ReclaimIsSound(files, refs, next, f, files[f].master.value);
      refs := refs[files[f].master.value := refs[files[f].master.value] + 1];
      master := files[f].master;
      files := files[f := files[f].(wasMaster := true)];
      ret := 0;
    }

    /** drm_drop_master */
    method DropCurrent()
      requires Valid() && master.Some?
      modifies `refs, `master
      ensures Valid() && master == None && old(master).value in old(refs)
      ensures refs == Put(old(refs), old(master).value)
    {
      DropIsSound(files, refs, master.value, next);
      refs := Put(refs, master.value);
      master := None;
    }

    /** drm_dropmaster_ioctl */
    method DropMaster(f: int, sameProcess: bool, admin: bool) returns (ret: int)
      requires Valid() && f in files
      modifies this
      ensures Valid() && files == old(files)
      ensures ret == if !((files[f].wasMaster && sameProcess) || admin) then EACCES
                     else if files[f].isMaster && files[f].master == old(master) && old(master).Some? then 0
                     else EINVAL
      ensures master == if ret == 0 then None else old(master)
    {
      if !Permitted(f, sameProcess, admin) {
        return EACCES;
      }
      if !IsCurrent(files, master, f) {
        return EINVAL;
      }
      if master == None {
        return EINVAL;
      }
      DropCurrent();
      ret := 0;
    }

    /** drm_master_release: the file is closed, and if it was the current master nobody is any more. */
    method Release(f: int)
      requires Valid() && f in files
      modifies this
      ensures Valid() && files == old(files) - {f}
      ensures master == if old(files)[f].isMaster && old(files)[f].master == old(master) then None else old(master)
    {
      if IsCurrent(files, master, f) {
        if master.Some? && master == files[f].master {
          DropCurrent();
        }
      }
      CloseIsSound(files, refs, master, next, f);
      refs := Closed(refs, files[f].master);
      files := files - {f};
    }
  }

  lemma NewFileIsSound(files: map<int, File>, refs: map<int, int>, master: Option<int>, next: int, f: int)
    requires Sound(files, refs, master, next) && f !in files
    ensures Sound(files[f := File(None, false, false)], refs, master, next)
  {
    var files' := files[f := File(None, false, false)];
    forall m | m in refs
      ensures Users(files', m) == Users(files, m)
    {}
    forall g | g in files'
      ensures Known(refs, files'[g].master)
    {
      assert g != f ==> Known(refs, files[g].master);
    }
    if master.Some? {
      var g :| Owns(files, g, master);
      assert Owns(files', g, master);
    }
  }
}
