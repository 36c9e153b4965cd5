/**
 The tables of A.fE and the ids under which files are stored. A row gives a file's name and length,
 the unique index on names gives its id, and the blocks, keyed by id and offset, are grouped by id.
*/
module IdStore {
  import opened Blocks
  import opened Storage
  import opened PendingQueue

  datatype Row = Row(name: string, length: nat)
  datatype Db = Db(files: map<nat, Row>, byName: map<string, nat>, blocks: map<nat, map<nat, Block>>, nextId: nat)

  function BlocksOf(db: Db, id: nat): map<nat, Block> {
    if id in db.blocks then db.blocks[id] else map[]
  }

  function FileOf(db: Db, id: nat): File
    requires id in db.files
  {
    File(db.files[id].length, BlocksOf(db, id))
  }

  /** The index lists exactly the rows, and blocks belong to rows and start at multiples of 4096. */
  ghost predicate Consistent(db: Db) {
    && (forall n :: n in db.byName ==> db.byName[n] in db.files && db.files[db.byName[n]].name == n)
    && (forall id :: id in db.files ==> id < db.nextId && IndexedBy(db, id))
    && db.blocks.Keys <= db.files.Keys
    && (forall id :: id in db.files ==> Aligned(FileOf(db, id)))
  }

  ghost predicate IndexedBy(db: Db, id: nat)
    requires id in db.files
  {
    var n := db.files[id].name;
    n in db.byName && db.byName[n] == id
  }

  /** The stored files, by name. */
  ghost function Stored(db: Db): Disk
    requires Consistent(db)
  {
    map n | n in db.byName :: FileOf(db, db.byName[n])
  }

  /** cS: a row for a new file. */
  function AddFile(db: Db, name: string): Db {
    Db(db.files[db.nextId := Row(name, 0)], db.byName[name := db.nextId], db.blocks, db.nextId + 1)
  }

  /** b7: puts the replaced blocks and updates the length. */
  function PutBlocks(db: Db, id: nat, replaced: map<nat, Block>, length: nat): Db
    requires id in db.files
  {
    var row := db.files[id];
    db.(files := if length != row.length then db.files[id := Row(row.name, length)] else db.files,
        blocks := db.blocks[id := BlocksOf(db, id) + replaced])
  }

  /** bi: deletes the blocks behind the one that holds byte n and updates the length. */
  function CutFile(db: Db, id: nat, n: nat): Db
    requires id in db.files
  {
    var row, blocks := db.files[id], BlocksOf(db, id);
    var kept := if row.length > n then map p: nat | p in blocks && p < (n / BLOCK) * BLOCK + 1 :: blocks[p] else blocks;
    db.(files := db.files[id := Row(row.name, n)], blocks := db.blocks[id := kept])
  }

  /** cU: deletes a file's blocks and its row. */
  function DropFile(db: Db, id: nat): Db
    requires id in db.files
  {
    Db(db.files - {id}, db.byName - {db.files[id].name}, db.blocks - {id}, db.nextId)
  }

  lemma AddFileConsistent(db: Db, name: string)
    requires Consistent(db) && name !in db.byName
    ensures Consistent(AddFile(db, name))
    ensures forall id :: id in db.files ==> FileOf(AddFile(db, name), id) == FileOf(db, id)
  {
    var db' := AddFile(db, name);
    assert FileOf(db', db.nextId) == EMPTY;
    forall id | id in db.files ensures IndexedBy(db', id) && FileOf(db', id) == FileOf(db, id) {
      assert IndexedBy(db, id);
    }
  }

  lemma AddFileStores(db: Db, name: string)
    requires Consistent(db) && name !in db.byName
    ensures Consistent(AddFile(db, name))
    ensures Stored(AddFile(db, name)) == Perform(Create(name), Stored(db))
  {
    AddFileConsistent(db, name);
    assert FileOf(AddFile(db, name), db.nextId) == EMPTY;
  }

  /** Changing the length and the blocks of one row changes just that file. */
  lemma RowChanged(db: Db, db': Db, name: string)
    requires Consistent(db) && name in db.byName
    requires db'.byName == db.byName && db'.nextId == db.nextId
    requires db'.files.Keys == db.files.Keys && db'.blocks.Keys <= db.files.Keys
    requires forall i :: i in db.files ==> db'.files[i].name == db.files[i].name
    requires forall i :: i in db.files && i != db.byName[name] ==> FileOf(db', i) == FileOf(db, i)
    requires Aligned(FileOf(db', db.byName[name]))
    ensures Consistent(db')
    ensures Stored(db') == Stored(db)[name := FileOf(db', db.byName[name])]
  {
    forall id | id in db.files ensures IndexedBy(db', id) { assert IndexedBy(db, id); }
  }

  lemma PutBlocksStores(db: Db, name: string, original: Bytes, ws: seq<Write>)
    requires Consistent(db) && name in db.byName
    ensures var db' := PutBlocks(db, db.byName[name], Replaced(original, ws), |Overlaid(original, ws)|);
      Consistent(db') && Stored(db') == Perform(Patch(name, original, ws), Stored(db))
  {
    var id := db.byName[name];
    var db' := PutBlocks(db, id, Replaced(original, ws), |Overlaid(original, ws)|);
    assert FileOf(db', id) == Patched(FileOf(db, id), original, ws);
    PatchedAligned(FileOf(db, id), original, ws);
    RowChanged(db, db', name);
  }

  lemma CutFileStores(db: Db, name: string, n: nat)
    requires Consistent(db) && name in db.byName
    ensures var db' := CutFile(db, db.byName[name], n);
      Consistent(db') && Stored(db') == Perform(Resize(name, n), Stored(db))
  {
    var id := db.byName[name];
    assert FileOf(CutFile(db, id, n), id) == Resized(FileOf(db, id), n);
    RowChanged(db, CutFile(db, id, n), name);
  }

  lemma DropFileStores(db: Db, name: string)
    requires Consistent(db) && name in db.byName
    ensures var db' := DropFile(db, db.byName[name]);
      Consistent(db') && Stored(db') == Perform(Delete(name), Stored(db))
  {}

  /** Every remembered id is the id of the row with that name. */
  ghost predicate Remembers(ids: map<string, nat>, db: Db) {
    forall n :: n in ids ==> ids[n] in db.files && db.files[ids[n]].name == n
  }

  /** A.cY's view of the store: the tables, and the ids it has looked up (y). */
  class IdCache {
    var db: Db
    var ids: map<string, nat>

    ghost predicate Valid()
      reads this
    {
      Consistent(db) && Remembers(ids, db)
    }

    constructor (db: Db)
      requires Consistent(db)
      ensures Valid() && this.db == db
    {
      this.db, ids := db, map[];
    }

    /** The part of bQ that remembers the id of every file. */
    method RememberAll()
      requires Valid()
      modifies this`ids
      ensures Valid() && ids == db.byName
    {
      ids := db.byName;
    }

    /** br: the id of a file, remembered or looked up by name; none when the lookup finds no row. */
    method Lookup(name: string) returns (found: bool, id: nat)
      requires Valid()
      modifies this`ids
      ensures Valid()
      ensures found == (name in db.byName)
      ensures found ==> id == db.byName[name]
    {
      if name in ids {
        assert IndexedBy(db, ids[name]);
        return true, ids[name];
      }
      if name !in db.byName { return false, 0; }
      id := db.byName[name];
      ids := ids[name := id];
      return true, id;
    }

    /** U of A.cC: fails when the unique index already has the name. */
    method ExecuteCreate(n: string)
      requires Valid()
      modifies this
      ensures Valid() && Stored(db) == Perform(Create(n), Stored(old(db)))
    {
      if n in db.byName { return; }
      AddFileStores(db, n);
      ids := ids[n := db.nextId];
      db := AddFile(db, n);
    }

    /** U of A.dr */
    method ExecuteDelete(n: string)
      requires Valid()
      modifies this
      ensures Valid() && Stored(db) == Perform(Delete(n), Stored(old(db)))
    {
      var found, id := Lookup(n);
      if !found { return; }
      DropFileStores(db, n);
      ids := ids - {n};
      db := DropFile(db, id);
    }

    /** U of A.cK */
    method ExecutePatch(n: string, original: Bytes, ws: seq<Write>)
      requires Valid()
      modifies this
      ensures Valid() && Stored(db) == Perform(Patch(n, original, ws), Stored(old(db)))
    {
      var replaced, length := Collect(original, ws);
      var found, id := Lookup(n);
      if !found { return; }
      PutBlocksStores(db, n, original, ws);
      db := PutBlocks(db, id, replaced, length);
    }

    /** The deferred truncation, A.mw */
    method ExecuteResize(n: string, length: nat)
      requires Valid()
      modifies this
      ensures Valid() && Stored(db) == Perform(Resize(n, length), Stored(old(db)))
    {
      var found, id := Lookup(n);
      if !found { return; }
      CutFileStores(db, n, length);
      db := CutFile(db, id, length);
    }

    /** The transaction of one operation. */
    method Execute(op: Op)
      requires Valid()
      modifies this
      ensures Valid() && Stored(db) == Perform(op, Stored(old(db)))
    {
      match op
      case Create(n) => ExecuteCreate(n);
      case Delete(n) => ExecuteDelete(n);
      case Patch(n, original, ws) => ExecutePatch(n, original, ws);
      case Resize(n, length) => ExecuteResize(n, length);
    }

    /**
     The transaction of one operation when it fails: the id was looked up before, and a deletion forgets it
     before its transaction starts.
    */
    method ExecuteInVain(op: Op)
      requires Valid()
      modifies this`ids
      ensures Valid()
    {
      if op.Create? { return; }
      var found, id := Lookup(op.name);
      if found && op.Delete? { ids := ids - {op.name}; }
    }
  }

  /** The loop of A.cK.U: the blocks that all the writes replace. */
  method Collect(original: Bytes, ws: seq<Write>) returns (replaced: map<nat, Block>, length: nat)
    ensures replaced == Replaced(original, ws) && length == |Overlaid(original, ws)|
  {
    var writer := new BlockWriter(original);
    for k := 0 to |ws|
      invariant writer.original == original && writer.Holds(ws[..k])
    {
      writer.Put(ws[k].offset, ws[k].data, ws[..k]);
      assert ws[..k + 1] == ws[..k] + [ws[k]] && Write(ws[k].offset, ws[k].data) == ws[k];
    }
    assert ws[..|ws|] == ws;
    return writer.replaced, writer.newLength;
  }
}
