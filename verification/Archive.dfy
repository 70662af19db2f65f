/** The block archive (src/archive.rs) over an abstract disk: one growing file of active
    blocks, closed into a backup and a checkpoint when the month changes or the file is
    full. What a restart loads is proved to be the chain that was running. */
module Archive {
  import opened Basics
  import opened Sorting
  import opened Messages
  import opened Ledger
  import opened Chain
  import opened Calendar
  import opened FileNames

  const MAX_ACTIVE_BLOCK_BYTES: nat := 100_000_000

  /** The files: active blocks with their month, backups and checkpoints by name. */
  datatype Disk = Disk(
    active: Option<seq<Block>>, period: Option<string>,
    backups: map<string, seq<Block>>, checkpoints: map<string, StateSnapshot>)

  const EMPTY_DISK: Disk := Disk(None, None, map[], map[])

  datatype ArchiveError = RecordTooLarge

  /** The limit of a store, the length of a block's record, and the month of a block. */
  datatype Settings = Settings(limit: nat, size: Block -> nat, period: Block -> string)

  function CivilMonth(b: Block): string {
    PeriodMonotone(b.timestamp, b.timestamp);
    PeriodText(PeriodOf(b.timestamp))
  }

  ghost predicate LimitOk(cfg: Settings) {
    0 < cfg.limit <= MAX_ACTIVE_BLOCK_BYTES
  }

  ghost predicate CivilMonths(cfg: Settings) {
    forall b :: cfg.period(b) == CivilMonth(b)
  }

  function BlockBytes(size: Block -> nat, blocks: seq<Block>): nat {
    if blocks == [] then 0 else BlockBytes(size, blocks[..|blocks| - 1]) + size(blocks[|blocks| - 1])
  }

  function LoadActive(d: Disk): seq<Block> {
    if d.active.Some? then d.active.value else []
  }

  /** `directory_bytes` of the active directory: the block file and the period file. */
  function DirectoryBytes(cfg: Settings, d: Disk): nat {
    Min(BlockBytes(cfg.size, LoadActive(d)) + (if d.period.Some? then |d.period.value| else 0), U64_MAX)
  }

  /** The first part number from `part` on whose file does not exist. */
  function FreePart(used: set<string>, period: string, part: nat): (r: nat)
    ensures r >= part && PartName(period, r) !in used
    decreases |used|
  {
    if PartName(period, part) !in used then part
    else
      var r := FreePart(used - {PartName(period, part)}, period, part + 1);
      PartNamesDiffer(period, r, part);
      r
  }

  lemma PartNamesDiffer(period: string, a: nat, b: nat)
    requires a != b
    ensures PartName(period, a) != PartName(period, b)
  {
    var x, y := Padded(a, 2), Padded(b, 2);
    PaddedInjective(a, b, 2);
    var s, t := PartName(period, a), PartName(period, b);
    assert x == s[|period| + 5..|s| - 10] && y == t[|period| + 5..|t| - 10];
  }

  function FreeBackupName(backups: map<string, seq<Block>>, period: string): (name: string)
    ensures name !in backups
  {
    if BackupName(period) !in backups then BackupName(period)
    else PartName(period, FreePart(backups.Keys, period, 2))
  }

  function Rollover(d: Disk, chain: ChainState, period: string): Disk
    requires chain.HasTip()
  {
    if d.active.None? then d
    else
      var snapshot := TakeSnapshot(chain);
      Disk(None, None, d.backups[FreeBackupName(d.backups, period) := d.active.value],
           d.checkpoints[CheckpointName(period, snapshot.height) := snapshot])
  }

  predicate MustRoll(cfg: Settings, d: Disk, b: Block) {
    || (d.period.Some? && d.period.value != cfg.period(b))
    || DirectoryBytes(cfg, d) + cfg.size(b) > cfg.limit
  }

  function AppendFinalized(cfg: Settings, d: Disk, b: Block, before: ChainState): Result<Disk, ArchiveError>
    requires before.HasTip()
  {
    if cfg.size(b) > cfg.limit then Err(RecordTooLarge)
    else
      var period := cfg.period(b);
      var e := if MustRoll(cfg, d, b) then Rollover(d, before, if d.period.Some? then d.period.value else period)
        else d;
      Ok(e.(active := Some(LoadActive(e) + [b]), period := Some(period)))
  }

  // ---------- The invariant ----------

  function StampName(cfg: Settings, b: Block): string {
    CheckpointName(cfg.period(b), b.height)
  }

  /** The blocks of the named backups, file after file. */
  function Contents(backups: map<string, seq<Block>>, names: seq<string>): seq<Block>
    requires forall n :: n in names ==> n in backups
  {
    if names == [] then []
    else Contents(backups, names[..|names| - 1]) + backups[names[|names| - 1]]
  }

  ghost predicate Listing<T>(names: seq<string>, files: map<string, T>) {
    multiset(names) == multiset(files.Keys)
  }

  lemma ListingMembers<T>(names: seq<string>, files: map<string, T>)
    requires Listing(names, files)
    ensures forall n :: n in names <==> n in files
  {
    forall n ensures n in names <==> n in files {
      assert n in names <==> n in multiset(names);
    }
  }

  /** The first `k` appended blocks are in backups, in the order of `log`; the rest are active. */
  ghost predicate Filed(d: Disk, appended: seq<Block>, k: nat, log: seq<string>) {
    && k <= |appended|
    && LoadActive(d) == appended[k..]
    && Listing(log, d.backups)
    && (forall n :: n in log ==> n in d.backups)
    && Contents(d.backups, log) == appended[..k]
  }

  ghost predicate Shaped(cfg: Settings, d: Disk) {
    && (d.active.Some? <==> d.period.Some?)
    && (d.active.Some? ==> d.active.value != [] && d.period.value == cfg.period(d.active.value[|d.active.value| - 1]))
    && BlockBytes(cfg.size, LoadActive(d)) <= cfg.limit
  }

  ghost predicate NamedAfter(cfg: Settings, checkpoints: map<string, StateSnapshot>, blocks: seq<Block>) {
    forall n :: n in checkpoints ==> exists b :: b in blocks && n == StampName(cfg, b)
  }

  /** Every checkpoint is named after the last block it covers, and the one named after the
      last block in the backups holds the state there. */
  ghost predicate Stamped(cfg: Settings, d: Disk, appended: seq<Block>, k: nat, base: Result<ChainState, LedgerError>)
    requires k <= |appended| && (base.Ok? ==> base.value.HasTip())
  {
    && NamedAfter(cfg, d.checkpoints, appended[..k])
    && (k > 0 ==>
          && base.Ok?
          && StampName(cfg, appended[k - 1]) in d.checkpoints
          && d.checkpoints[StampName(cfg, appended[k - 1])] == TakeSnapshot(base.value))
  }

  ghost predicate Archived(c: Crypto, cfg: Settings, d: Disk, start: ChainState, appended: seq<Block>, k: nat,
                           log: seq<string>)
    requires start.HasTip()
  {
    Shaped(cfg, d) && Filed(d, appended, k, log) && Stamped(cfg, d, appended, k, Replay(c, start, appended[..k]))
  }

  lemma {:induction false} ContentsFrame(backups: map<string, seq<Block>>, names: seq<string>, n: string,
                                         file: seq<Block>)
    requires n !in names && forall m :: m in names ==> m in backups
    ensures forall m :: m in names ==> m in backups[n := file]
    ensures Contents(backups[n := file], names) == Contents(backups, names)
  {
    if names != [] {
      ContentsFrame(backups, names[..|names| - 1], n, file);
    }
  }

  lemma AddListing<T>(log: seq<string>, files: map<string, T>, n: string, file: T)
    requires Listing(log, files) && n !in files
    ensures Listing(log + [n], files[n := file])
  {
    assert files[n := file].Keys == files.Keys + {n};
  }

  lemma AddBackup(backups: map<string, seq<Block>>, log: seq<string>, n: string, file: seq<Block>)
    requires Listing(log, backups) && n !in backups
    ensures forall m :: m in log ==> m in backups
    ensures forall m :: m in log + [n] ==> m in backups[n := file]
    ensures Contents(backups[n := file], log + [n]) == Contents(backups, log) + file
  {
    ListingMembers(log, backups);
    ContentsFrame(backups, log, n, file);
    assert (log + [n])[..|log|] == log;
  }

  lemma RolloverFiled(d: Disk, chain: ChainState, period: string, appended: seq<Block>, k: nat, log: seq<string>)
    requires chain.HasTip() && d.active.Some? && Filed(d, appended, k, log)
    ensures Filed(Rollover(d, chain, period), appended, |appended|, log + [FreeBackupName(d.backups, period)])
  {
    var n := FreeBackupName(d.backups, period);
    AddListing(log, d.backups, n, d.active.value);
    AddBackup(d.backups, log, n, d.active.value);
    SplitAt(appended, k);
    WholeOf(appended);
  }

  lemma AddCheckpoint(cfg: Settings, checkpoints: map<string, StateSnapshot>, snapshot: StateSnapshot,
                      appended: seq<Block>, k: nat)
    requires k < |appended| && NamedAfter(cfg, checkpoints, appended[..k])
    ensures NamedAfter(cfg, checkpoints[StampName(cfg, appended[|appended| - 1]) := snapshot], appended)
  {
    var last := appended[|appended| - 1];
    var more := checkpoints[StampName(cfg, last) := snapshot];
    forall n | n in more ensures exists b :: b in appended && n == StampName(cfg, b) {
      if n == StampName(cfg, last) {
        assert last in appended;
      } else {
        var b :| b in appended[..k] && n == StampName(cfg, b);
        assert b in appended;
      }
    }
  }

  lemma RolloverStamped(cfg: Settings, d: Disk, chain: ChainState, appended: seq<Block>, k: nat)
    requires chain.HasTip() && k < |appended| && d.active.Some?
    requires chain.Tip() == appended[|appended| - 1] && NamedAfter(cfg, d.checkpoints, appended[..k])
    ensures Stamped(cfg, Rollover(d, chain, cfg.period(appended[|appended| - 1])), appended, |appended|, Ok(chain))
  {
    AddCheckpoint(cfg, d.checkpoints, TakeSnapshot(chain), appended, k);
    WholeOf(appended);
  }

  lemma RolloverKeeps(c: Crypto, cfg: Settings, d: Disk, chain: ChainState, start: ChainState, appended: seq<Block>,
                      k: nat, log: seq<string>)
    requires start.HasTip() && chain.HasTip() && d.active.Some?
    requires Replay(c, start, appended) == Ok(chain)
    requires Archived(c, cfg, d, start, appended, k, log)
    ensures Archived(c, cfg, Rollover(d, chain, d.period.value), start, appended, |appended|,
                     log + [FreeBackupName(d.backups, d.period.value)])
  {
    RolloverFiled(d, chain, d.period.value, appended, k, log);
    assert d.active.value[|d.active.value| - 1] == appended[|appended| - 1];
    TipHashes(c, start, appended);
    RolloverStamped(cfg, d, chain, appended, k);
    WholeOf(appended);
  }

  lemma AddBlockKeeps(c: Crypto, cfg: Settings, d: Disk, b: Block, start: ChainState, appended: seq<Block>, k: nat,
                      log: seq<string>)
    requires start.HasTip() && Archived(c, cfg, d, start, appended, k, log)
    requires BlockBytes(cfg.size, LoadActive(d)) + cfg.size(b) <= cfg.limit
    ensures Archived(c, cfg, d.(active := Some(LoadActive(d) + [b]), period := Some(cfg.period(b))), start,
                     appended + [b], k, log)
  {
    var more := LoadActive(d) + [b];
    assert more[..|more| - 1] == LoadActive(d);
    assert (appended + [b])[..k] == appended[..k];
    assert (appended + [b])[k..] == appended[k..] + [b];
  }

  /** One append keeps the archive in step with the chain. */
  lemma AppendKeeps(c: Crypto, cfg: Settings, d: Disk, b: Block, before: ChainState, start: ChainState,
                    appended: seq<Block>, k: nat, log: seq<string>) returns (j: nat, names: seq<string>)
    requires start.HasTip() && before.HasTip() && LimitOk(cfg) && cfg.size(b) <= cfg.limit
    requires Replay(c, start, appended) == Ok(before)
    requires Archived(c, cfg, d, start, appended, k, log)
    ensures Archived(c, cfg, AppendFinalized(cfg, d, b, before).value, start, appended + [b], j, names)
  {
    if MustRoll(cfg, d, b) && d.active.Some? {
      RolloverKeeps(c, cfg, d, before, start, appended, k, log);
      j, names := |appended|, log + [FreeBackupName(d.backups, d.period.value)];
      AddBlockKeeps(c, cfg, Rollover(d, before, d.period.value), b, start, appended, j, names);
    } else {
      j, names := k, log;
      AddBlockKeeps(c, cfg, d, b, start, appended, k, log);
    }
  }

  // ---------- Runs ----------

  /** A node's chain and its archive, fed with the same blocks. */
  datatype Node = Node(chain: ChainState, disk: Disk)

  function AppendAll(c: Crypto, cfg: Settings, s: Node, blocks: seq<Block>): Option<Node>
    requires s.chain.HasTip()
    decreases |blocks|
  {
    if blocks == [] then Some(s)
    else
      match ApplyBlock(c, s.chain, blocks[0])
      case Err(_) => None
      case Ok(chain) =>
        match AppendFinalized(cfg, s.disk, blocks[0], s.chain)
        case Err(_) => None
        case Ok(disk) => AppendAll(c, cfg, Node(chain, disk), blocks[1..])
  }

  /** A run goes through exactly when the chain accepts every block and no record is larger
      than the whole limit. */
  lemma {:induction false} AppendAllSucceedsIff(c: Crypto, cfg: Settings, s: Node, blocks: seq<Block>)
    requires s.chain.HasTip()
    ensures AppendAll(c, cfg, s, blocks).Some?
       <==> Replay(c, s.chain, blocks).Ok? && forall b :: b in blocks ==> cfg.size(b) <= cfg.limit
    decreases |blocks|
  {
    if blocks != [] {
      assert blocks == [blocks[0]] + blocks[1..];
      var r := ApplyBlock(c, s.chain, blocks[0]);
      if r.Ok? && cfg.size(blocks[0]) <= cfg.limit {
        var disk := AppendFinalized(cfg, s.disk, blocks[0], s.chain).value;
        AppendAllSucceedsIff(c, cfg, Node(r.value, disk), blocks[1..]);
      }
    }
  }

  lemma {:induction false} AppendAllKeeps(c: Crypto, cfg: Settings, s: Node, start: ChainState, appended: seq<Block>,
                                          k: nat, log: seq<string>, blocks: seq<Block>)
    returns (j: nat, names: seq<string>)
    requires start.HasTip() && s.chain.HasTip() && LimitOk(cfg)
    requires Replay(c, start, appended) == Ok(s.chain)
    requires Archived(c, cfg, s.disk, start, appended, k, log)
    requires AppendAll(c, cfg, s, blocks).Some?
    ensures var t := AppendAll(c, cfg, s, blocks).value;
      && Replay(c, start, appended + blocks) == Ok(t.chain)
      && Archived(c, cfg, t.disk, start, appended + blocks, j, names)
    decreases |blocks|
  {
    if blocks == [] {
      assert appended + blocks == appended;
      j, names := k, log;
    } else {
      var b := blocks[0];
      var i, more := AppendKeeps(c, cfg, s.disk, b, s.chain, start, appended, k, log);
      ReplaySnoc(c, start, appended, b);
      var t := Node(ApplyBlock(c, s.chain, b).value, AppendFinalized(cfg, s.disk, b, s.chain).value);
      MoveOver(appended, blocks);
      j, names := AppendAllKeeps(c, cfg, t, start, appended + [b], i, more, blocks[1..]);
    }
  }

  // ---------- Months ----------

  /** A file holds blocks of one month and is named after it. */
  ghost predicate MonthFile(cfg: Settings, name: string, blocks: seq<Block>) {
    && blocks != []
    && (forall b :: b in blocks ==> cfg.period(b) == cfg.period(blocks[0]))
    && (name == BackupName(cfg.period(blocks[0])) || exists part :: name == PartName(cfg.period(blocks[0]), part))
  }

  /** The active file holds blocks of the month it is marked with, and so does every backup. */
  ghost predicate OneMonthEach(cfg: Settings, d: Disk) {
    && (d.active.Some? ==> d.active.value != [] && d.period.Some?)
    && (forall b :: b in LoadActive(d) ==> d.period == Some(cfg.period(b)))
    && (forall n :: n in d.backups ==> MonthFile(cfg, n, d.backups[n]))
  }

  lemma RolloverMonths(cfg: Settings, d: Disk, chain: ChainState)
    requires chain.HasTip() && OneMonthEach(cfg, d) && d.active.Some?
    ensures OneMonthEach(cfg, Rollover(d, chain, d.period.value))
  {
    var name := FreeBackupName(d.backups, d.period.value);
    assert d.active.value[0] in LoadActive(d);
    assert name == BackupName(d.period.value) || exists part :: name == PartName(d.period.value, part);
    assert MonthFile(cfg, name, d.active.value);
  }

  /** A block of another month closes the file, so does one that no longer fits, and nothing
      else does; the new block goes to the end of the file that is then open. */
  lemma RollsIff(cfg: Settings, d: Disk, b: Block, before: ChainState)
    requires before.HasTip() && cfg.size(b) <= cfg.limit && OneMonthEach(cfg, d)
    ensures var e := AppendFinalized(cfg, d, b, before).value;
      var closes := d.active.Some? && (d.period.value != cfg.period(b)
        || Min(BlockBytes(cfg.size, d.active.value) + |d.period.value|, U64_MAX) + cfg.size(b) > cfg.limit);
      && OneMonthEach(cfg, e)
      && (if closes
          then && LoadActive(e) == [b]
               && e.backups == d.backups[FreeBackupName(d.backups, d.period.value) := d.active.value]
          else LoadActive(e) == LoadActive(d) + [b] && e.backups == d.backups && e.checkpoints == d.checkpoints)
  {
    if d.active.Some? && MustRoll(cfg, d, b) {
      RolloverMonths(cfg, d, before);
    }
  }

  /** Over every run each file of the archive holds blocks of a single month. */
  lemma {:induction false} MonthsApart(c: Crypto, cfg: Settings, s: Node, blocks: seq<Block>)
    requires s.chain.HasTip() && OneMonthEach(cfg, s.disk) && AppendAll(c, cfg, s, blocks).Some?
    ensures OneMonthEach(cfg, AppendAll(c, cfg, s, blocks).value.disk)
    decreases |blocks|
  {
    if blocks != [] {
      RollsIff(cfg, s.disk, blocks[0], s.chain);
      var disk := AppendFinalized(cfg, s.disk, blocks[0], s.chain).value;
      MonthsApart(c, cfg, Node(ApplyBlock(c, s.chain, blocks[0]).value, disk), blocks[1..]);
    }
  }

  // ---------- Recovery ----------

  predicate InTimeOrder(blocks: seq<Block>) {
    forall i, j :: 0 <= i <= j < |blocks| ==> blocks[i].timestamp <= blocks[j].timestamp
  }

  /** Within the years and heights whose file names sort correctly. */
  predicate Nameable(b: Block) {
    PeriodOf(b.timestamp).year <= 9_999 && b.height < 1_000_000_000_000
  }

  ghost predicate Greatest<T>(name: string, files: map<string, T>) {
    name in files && forall n :: n in files ==> TextLe(n, name)
  }

  lemma {:induction false} ReplayHeights(c: Crypto, start: ChainState, blocks: seq<Block>, i: nat)
    requires start.HasTip() && i < |blocks| && Replay(c, start, blocks).Ok?
    ensures blocks[i].height == start.Tip().height + 1 + i
    decreases i
  {
    ReplayLinked(c, start, blocks, i);
    if i > 0 {
      ReplayHeights(c, start, blocks, i - 1);
    }
  }

  /** The checkpoint of the later block has the greater name. */
  predicate Sortable(a: Block, b: Block) {
    var m, n := PeriodOf(a.timestamp), PeriodOf(b.timestamp);
    Dated(m) && Dated(n) && Chronological(m, a.height, n, b.height) && NamesSortable(m, a.height, n, b.height)
  }

  /** Of the first k blocks the last one sorts after all others. */
  predicate NewestSortable(blocks: seq<Block>, k: nat)
    requires k <= |blocks|
  {
    forall i :: 0 <= i < k ==> Sortable(blocks[i], blocks[k - 1])
  }

  /** Of the blocks that are no longer active the last one sorts after all others. */
  predicate SortableBefore(blocks: seq<Block>, active: seq<Block>) {
    |active| <= |blocks| && NewestSortable(blocks, |blocks| - |active|)
  }

  lemma StampsInOrder(cfg: Settings, a: Block, b: Block)
    requires CivilMonths(cfg) && Sortable(a, b)
    ensures TextLe(StampName(cfg, a), StampName(cfg, b))
  {
    NamesInOrderIff(PeriodOf(a.timestamp), a.height, PeriodOf(b.timestamp), b.height);
  }

  /** Blocks in order of time up to the year 9999 and below height 10^12 are always sortable. */
  lemma UsualBlocksSortable(c: Crypto, start: ChainState, blocks: seq<Block>, k: nat)
    requires start.HasTip() && k <= |blocks| && Replay(c, start, blocks).Ok?
    requires InTimeOrder(blocks) && forall b :: b in blocks ==> Nameable(b)
    ensures NewestSortable(blocks, k)
  {
    HeightsOrdered(c, start, blocks, k);
    UsualUpTo(blocks, k);
  }

  lemma UsualUpTo(blocks: seq<Block>, k: nat)
    requires k <= |blocks| && InTimeOrder(blocks) && forall b :: b in blocks ==> Nameable(b)
    requires forall i :: 0 <= i < k ==> blocks[i].height <= blocks[k - 1].height
    ensures NewestSortable(blocks, k)
  {
    forall i: nat | i < k ensures Sortable(blocks[i], blocks[k - 1]) {
      UsualAt(blocks, i, k - 1);
    }
  }

  lemma UsualAt(blocks: seq<Block>, i: nat, j: nat)
    requires i <= j < |blocks| && blocks[i].height <= blocks[j].height
    requires InTimeOrder(blocks) && forall b :: b in blocks ==> Nameable(b)
    ensures Sortable(blocks[i], blocks[j])
  {
    assert blocks[j] in blocks;
    UsualPair(blocks[i], blocks[j]);
  }

  lemma HeightsOrdered(c: Crypto, start: ChainState, blocks: seq<Block>, k: nat)
    requires start.HasTip() && k <= |blocks| && Replay(c, start, blocks).Ok?
    ensures forall i :: 0 <= i < k ==> blocks[i].height <= blocks[k - 1].height
  {
    forall i: nat | i < k ensures blocks[i].height <= blocks[k - 1].height {
      PairOrdered(c, start, blocks, i, k - 1);
    }
  }

  lemma PairOrdered(c: Crypto, start: ChainState, blocks: seq<Block>, i: nat, j: nat)
    requires start.HasTip() && i <= j < |blocks| && Replay(c, start, blocks).Ok?
    ensures blocks[i].height <= blocks[j].height
  {
    ReplayHeights(c, start, blocks, i);
    ReplayHeights(c, start, blocks, j);
  }

  lemma UsualPair(a: Block, b: Block)
    requires a.timestamp <= b.timestamp && a.height <= b.height && Nameable(b)
    ensures Sortable(a, b)
  {
    PeriodMonotone(a.timestamp, b.timestamp);
    PeriodMonotone(b.timestamp, b.timestamp);
    UsualNamesSortable(PeriodOf(a.timestamp), a.height, PeriodOf(b.timestamp), b.height);
  }

  /** The checkpoint of the last block in the backups has the greatest name. */
  lemma NewestIsGreatest(cfg: Settings, d: Disk, appended: seq<Block>, k: nat)
    requires 0 < k <= |appended| && NamedAfter(cfg, d.checkpoints, appended[..k])
    requires StampName(cfg, appended[k - 1]) in d.checkpoints
    requires CivilMonths(cfg) && NewestSortable(appended, k)
    ensures Greatest(StampName(cfg, appended[k - 1]), d.checkpoints)
  {
    forall n | n in d.checkpoints ensures TextLe(n, StampName(cfg, appended[k - 1])) {
      var b :| b in appended[..k] && n == StampName(cfg, b);
      var i :| 0 <= i < k && appended[i] == b;
      StampsInOrder(cfg, appended[i], appended[k - 1]);
    }
  }

  /** What a restart loads: the checkpoint with the greatest name, or else the start of the
      chain, and the active blocks on top. */
  ghost predicate Recovers(c: Crypto, d: Disk, start: ChainState, commitment: string, chain: ChainState)
    requires start.HasTip()
  {
    if d.checkpoints == map[] then Replay(c, start, LoadActive(d)) == Ok(chain)
    else
      exists name ::
        && Greatest(name, d.checkpoints)
        && var base := Restore(commitment, d.checkpoints[name]);
        && base.Ok?
        && Replay(c, base.value, LoadActive(d)).Ok?
        && Alike(chain, Replay(c, base.value, LoadActive(d)).value)
  }

  lemma {:induction false} ReplaySplit(c: Crypto, s: ChainState, a: seq<Block>, b: seq<Block>)
    requires s.HasTip() && Replay(c, s, a + b).Ok?
    ensures Replay(c, s, a).Ok? && Replay(c, Replay(c, s, a).value, b) == Replay(c, s, a + b)
    decreases |a|
  {
    if a == [] {
      assert a + b == b;
    } else {
      assert (a + b)[1..] == a[1..] + b;
      ReplaySplit(c, ApplyBlock(c, s, a[0]).value, a[1..], b);
    }
  }

  lemma TipHashes(c: Crypto, start: ChainState, blocks: seq<Block>)
    requires start.HasTip() && blocks != [] && Replay(c, start, blocks).Ok?
    ensures var tip := Replay(c, start, blocks).value.Tip();
      tip == blocks[|blocks| - 1] && tip.hash == CalculateHash(c, tip)
  {
    ReplayBlocks(c, start, blocks);
    ReplayLinked(c, start, blocks, |blocks| - 1);
  }

  lemma ArchiveRecovers(c: Crypto, cfg: Settings, d: Disk, start: ChainState, appended: seq<Block>, k: nat,
                        log: seq<string>, commitment: string)
    requires HexHashes(c) && start.HasTip() && Replay(c, start, appended).Ok?
    requires Archived(c, cfg, d, start, appended, k, log)
    requires CivilMonths(cfg) && NewestSortable(appended, k)
    ensures Recovers(c, d, start, commitment, Replay(c, start, appended).value)
  {
    SplitAt(appended, k);
    if k == 0 {
      assert appended[k..] == appended;
      assert d.checkpoints == map[] by {
        forall n ensures n !in d.checkpoints {
          assert appended[..k] == [];
        }
      }
    } else {
      NewestIsGreatest(cfg, d, appended, k);
      var name := StampName(cfg, appended[k - 1]);
      ReplaySplit(c, start, appended[..k], appended[k..]);
      var base := Replay(c, start, appended[..k]).value;
      TipHashes(c, start, appended[..k]);
      RestoreAlike(c, base, commitment);
      var restored := Restore(commitment, TakeSnapshot(base)).value;
      SnapshotSimulates(c, base, restored, appended[k..]);
      assert Greatest(name, d.checkpoints) && Restore(commitment, d.checkpoints[name]) == Ok(restored);
    }
  }

  predicate LowerBlock(a: Block, b: Block) { a.height <= b.height }

  lemma {:induction false} ContentsInsert(backups: map<string, seq<Block>>, n: string, names: seq<string>)
    requires n in backups && forall m :: m in names ==> m in backups
    ensures forall m :: m in Insert(TextLe, n, names) ==> m in backups
    ensures multiset(Contents(backups, Insert(TextLe, n, names)))
      == multiset(Contents(backups, names)) + multiset(backups[n])
  {
    if names == [] || TextLe(n, names[0]) {
      ContentsCons(backups, n, names);
    } else {
      var rest := names[1..];
      ContentsInsert(backups, n, rest);
      ContentsCons(backups, names[0], rest);
      ContentsCons(backups, names[0], Insert(TextLe, n, rest));
      assert names == [names[0]] + rest;
    }
  }

  lemma {:induction false} ContentsCons(backups: map<string, seq<Block>>, n: string, names: seq<string>)
    requires n in backups && forall m :: m in names ==> m in backups
    ensures Contents(backups, [n] + names) == backups[n] + Contents(backups, names)
    decreases |names|
  {
    var all := [n] + names;
    if names == [] {
      assert all == [n] && [n][..0] == [];
    } else {
      assert all[..|all| - 1] == [n] + names[..|names| - 1];
      ContentsCons(backups, n, names[..|names| - 1]);
    }
  }

  lemma {:induction false} ContentsSort(backups: map<string, seq<Block>>, names: seq<string>)
    requires forall m :: m in names ==> m in backups
    ensures forall m :: m in Sort(TextLe, names) ==> m in backups
    ensures multiset(Contents(backups, Sort(TextLe, names))) == multiset(Contents(backups, names))
  {
    if names != [] {
      var rest := names[1..];
      ContentsSort(backups, rest);
      ContentsInsert(backups, names[0], Sort(TextLe, rest));
      ContentsCons(backups, names[0], rest);
      assert names == [names[0]] + rest;
    }
  }

  lemma ListingsAgree(backups: map<string, seq<Block>>, log: seq<string>, listing: seq<string>)
    requires Listing(log, backups) && Listing(listing, backups)
    ensures forall n :: n in listing || n in log ==> n in backups
    ensures multiset(Contents(backups, listing)) == multiset(Contents(backups, log))
  {
    ListingMembers(listing, backups);
    ListingMembers(log, backups);
    TextOrder();
    SortIgnoresOrder(TextLe, listing, log);
    ContentsSort(backups, listing);
    ContentsSort(backups, log);
  }

  lemma SortByHeight(read: seq<Block>, blocks: seq<Block>, base: nat)
    requires multiset(read) == multiset(blocks)
    requires forall i :: 0 <= i < |blocks| ==> blocks[i].height == base + i
    ensures Sort(LowerBlock, read) == blocks
  {
    SortFacts(LowerBlock, read);
    SortedUnique(LowerBlock, blocks, Sort(LowerBlock, read));
  }

  /** In whatever order the directory lists the backups, reading them all and sorting by
      height gives the archived blocks in the order they were appended. */
  lemma BackupsReadBack(c: Crypto, d: Disk, start: ChainState, appended: seq<Block>, k: nat, log: seq<string>,
                        listing: seq<string>)
    requires start.HasTip() && Replay(c, start, appended).Ok?
    requires Filed(d, appended, k, log) && Listing(listing, d.backups)
    ensures forall n :: n in listing ==> n in d.backups
    ensures Sort(LowerBlock, Contents(d.backups, listing)) == appended[..k]
  {
    ListingsAgree(d.backups, log, listing);
    var base := start.Tip().height + 1;
    forall i: nat | i < k ensures appended[..k][i].height == base + i {
      ReplayHeights(c, start, appended, i);
    }
    SortByHeight(Contents(d.backups, listing), appended[..k], base);
  }

  /** Archive recovery. Over every run that starts on an empty disk backups and active blocks
      together are the appended blocks and the active blocks stay within the limit; and if the
      names of the archived blocks sort before that of the last of them, what a restart loads
      is the running chain. */
  lemma RecoveryTheorem(c: Crypto, cfg: Settings, start: ChainState, blocks: seq<Block>, commitment: string,
                        listing: seq<string>)
    requires HexHashes(c) && start.HasTip() && LimitOk(cfg)
    requires AppendAll(c, cfg, Node(start, EMPTY_DISK), blocks).Some?
    requires CivilMonths(cfg)
    requires Listing(listing, AppendAll(c, cfg, Node(start, EMPTY_DISK), blocks).value.disk.backups)
    ensures var t := AppendAll(c, cfg, Node(start, EMPTY_DISK), blocks).value;
      && (forall n :: n in listing ==> n in t.disk.backups)
      && Sort(LowerBlock, Contents(t.disk.backups, listing)) + LoadActive(t.disk) == blocks
      && |LoadActive(t.disk)| <= |blocks|
      && BlockBytes(cfg.size, LoadActive(t.disk)) <= cfg.limit
      && (SortableBefore(blocks, LoadActive(t.disk)) ==> Recovers(c, t.disk, start, commitment, t.chain))
  {
    var t := AppendAll(c, cfg, Node(start, EMPTY_DISK), blocks).value;
    var k, log := ArchivedFromStart(c, cfg, start, blocks, t);
    ArchivedMeans(c, cfg, t.disk, start, blocks, k, log, commitment, listing);
  }

  lemma ArchivedFromStart(c: Crypto, cfg: Settings, start: ChainState, blocks: seq<Block>, t: Node)
    returns (k: nat, log: seq<string>)
    requires start.HasTip() && LimitOk(cfg) && AppendAll(c, cfg, Node(start, EMPTY_DISK), blocks) == Some(t)
    ensures Replay(c, start, blocks) == Ok(t.chain) && Archived(c, cfg, t.disk, start, blocks, k, log)
  {
    EmptyArchived(c, cfg, start);
    k, log := AppendAllKeeps(c, cfg, Node(start, EMPTY_DISK), start, [], 0, [], blocks);
    assert [] + blocks == blocks;
  }

  lemma EmptyArchived(c: Crypto, cfg: Settings, start: ChainState)
    requires start.HasTip()
    ensures Archived(c, cfg, EMPTY_DISK, start, [], 0, [])
  {
    var none: seq<string> := [];
    assert Listing(none, EMPTY_DISK.backups);
  }

  lemma ArchivedMeans(c: Crypto, cfg: Settings, d: Disk, start: ChainState, blocks: seq<Block>, k: nat,
                      log: seq<string>, commitment: string, listing: seq<string>)
    requires HexHashes(c) && start.HasTip() && Replay(c, start, blocks).Ok? && CivilMonths(cfg)
    requires Archived(c, cfg, d, start, blocks, k, log) && Listing(listing, d.backups)
    ensures forall n :: n in listing ==> n in d.backups
    ensures Sort(LowerBlock, Contents(d.backups, listing)) + LoadActive(d) == blocks && |LoadActive(d)| <= |blocks|
    ensures BlockBytes(cfg.size, LoadActive(d)) <= cfg.limit
    ensures SortableBefore(blocks, LoadActive(d)) ==>
      Recovers(c, d, start, commitment, Replay(c, start, blocks).value)
  {
    FiledMeans(c, d, start, blocks, k, log, listing);
    if SortableBefore(blocks, LoadActive(d)) {
      SameCut(blocks, |blocks| - |LoadActive(d)|, k);
      ArchiveRecovers(c, cfg, d, start, blocks, k, log, commitment);
    }
  }

  lemma SameCut(blocks: seq<Block>, j: nat, k: nat)
    requires j == k <= |blocks| && NewestSortable(blocks, j)
    ensures NewestSortable(blocks, k)
  {
  }

  lemma FiledMeans(c: Crypto, d: Disk, start: ChainState, blocks: seq<Block>, k: nat, log: seq<string>,
                   listing: seq<string>)
    requires start.HasTip() && Replay(c, start, blocks).Ok?
    requires Filed(d, blocks, k, log) && Listing(listing, d.backups)
    ensures forall n :: n in listing ==> n in d.backups
    ensures Sort(LowerBlock, Contents(d.backups, listing)) + LoadActive(d) == blocks
    ensures k == |blocks| - |LoadActive(d)|
  {
    BackupsReadBack(c, d, start, blocks, k, log, listing);
    SplitAt(blocks, k);
  }

  /** The whole directory, with its period file, stays within the limit exactly when the new
      record leaves room for that file. */
  lemma DirectoryWithinLimitIff(cfg: Settings, d: Disk, b: Block, before: ChainState)
    requires before.HasTip() && LimitOk(cfg) && cfg.size(b) <= cfg.limit
    requires Shaped(cfg, d)
    ensures var e := AppendFinalized(cfg, d, b, before).value;
      DirectoryBytes(cfg, e) <= cfg.limit <==> cfg.size(b) + |cfg.period(b)| <= cfg.limit
  {
    AppendedBytes(cfg, d, b, before);
  }

  lemma AppendedBytes(cfg: Settings, d: Disk, b: Block, before: ChainState)
    requires before.HasTip() && cfg.size(b) <= cfg.limit
    ensures var e := AppendFinalized(cfg, d, b, before).value;
      && e.period == Some(cfg.period(b))
      && BlockBytes(cfg.size, LoadActive(e))
           == (if MustRoll(cfg, d, b) then 0 else BlockBytes(cfg.size, LoadActive(d))) + cfg.size(b)
  {
    var e := AppendFinalized(cfg, d, b, before).value;
    var kept := if MustRoll(cfg, d, b) then [] else LoadActive(d);
    assert LoadActive(e) == kept + [b];
    assert (kept + [b])[..|kept|] == kept;
  }
}
