/** The tables of the store, as the migration statements declare them. */
module Schema {
  import opened Wrappers

  datatype Kind = TextKind | FileKind

  /** A nullable reference to a row. */
  datatype RowRef = Null | Ref(id: int)

  /** A row of `subscriptions`. */
  datatype Sub = Sub(
    name: string,
    path: string,
    content: string,
    kind: Kind,
    fileId: RowRef,
    downloadName: string,
    enabled: bool,
    fetchCount: nat,
    currentCount: nat,
    revision: nat,
    lastFetchedAt: Option<string>,
    lastFetchedIp: string,
    createdAt: string,
    updatedAt: string)

  /** A row of `files`. */
  datatype File = File(
    md5: string,
    sha256: string,
    size: nat,
    contentType: string,
    storageKey: string,
    originalName: string,
    downloadCount: nat,
    lastDownloadedAt: Option<string>,
    lastDownloadedIp: string,
    createdAt: string,
    updatedAt: string)

  /** A row of `file_subscription_stats`. */
  datatype Stat = Stat(downloadCount: nat, lastDownloadedAt: string, lastDownloadedIp: string)

  /** A row of `access_logs`. */
  datatype Log = Log(
    subId: int,
    fileId: RowRef,
    requestedAt: string,
    clientIp: string,
    clientName: string,
    userAgent: string,
    httpMethod: string,
    status: int)

  /** The primary key of the statistics table. */
  datatype Pair = Pair(file: int, sub: int)

  /** The whole database. `nextX` is the next AUTOINCREMENT id of a table;
      `counted` says whether the column `current_fetch_count` exists yet. */
  datatype Db = Db(
    subs: map<int, Sub>,
    files: map<int, File>,
    stats: map<Pair, Stat>,
    logs: map<int, Log>,
    nextSub: int,
    nextFile: int,
    nextLog: int,
    counted: bool)

  /** A freshly created database. */
  function Empty(): Db {
    Db(map[], map[], map[], map[], 1, 1, 1, true)
  }

  function Associated(db: Db, fileId: int): set<int> {
    set id | id in db.subs && db.subs[id].fileId == Ref(fileId)
  }

  /** The total of a pair, 0 where no row was inserted yet. */
  function PairCount(db: Db, fileId: int, subId: int): nat {
    if Pair(fileId, subId) in db.stats then db.stats[Pair(fileId, subId)].downloadCount else 0
  }

  // ---- The declared constraints ----

  /** AUTOINCREMENT: every id in use lies below the table's next id. */
  ghost predicate IdsBelow(db: Db) {
    && 1 <= db.nextSub && 1 <= db.nextFile && 1 <= db.nextLog
    && (forall id :: id in db.subs ==> 0 < id < db.nextSub)
    && (forall id :: id in db.files ==> 0 < id < db.nextFile)
    && (forall id :: id in db.logs ==> 0 < id < db.nextLog)
  }

  /** REFERENCES: every reference names an existing row, and only file subscriptions hold one. */
  ghost predicate References(db: Db) {
    && (forall id :: id in db.subs && db.subs[id].fileId.Ref? ==>
          db.subs[id].kind == FileKind && db.subs[id].fileId.id in db.files)
    && (forall k :: k in db.stats ==> k.file in db.files && k.sub in db.subs)
    && (forall id :: id in db.logs ==> db.logs[id].subId in db.subs)
    && (forall id :: id in db.logs && db.logs[id].fileId.Ref? ==> db.logs[id].fileId.id in db.files)
  }

  /** UNIQUE: subscription paths, file digests and storage keys. */
  ghost predicate Unique(db: Db) {
    && (forall i, j :: i in db.subs && j in db.subs && db.subs[i].path == db.subs[j].path ==> i == j)
    && (forall i, j :: i in db.files && j in db.files && db.files[i].sha256 == db.files[j].sha256 ==> i == j)
    && (forall i, j :: i in db.files && j in db.files && db.files[i].storageKey == db.files[j].storageKey ==> i == j)
  }

  ghost predicate Integrity(db: Db) {
    IdsBelow(db) && References(db) && Unique(db)
  }

  /** No enabled file subscription lacks a file. */
  ghost predicate EnabledAttached(db: Db) {
    forall id :: id in db.subs && db.subs[id].kind == FileKind && db.subs[id].enabled ==> db.subs[id].fileId.Ref?
  }
}
