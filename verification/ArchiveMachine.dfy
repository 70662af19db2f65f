/** The archive object of the source: files change one at a time, and each call is proved
    to leave the disk that `Archive` says. */
module ArchiveMachine {
  import opened Basics
  import opened Sorting
  import opened Messages
  import opened Ledger
  import opened Chain
  import opened FileNames
  import opened Archive

  class ArchiveStore {
    const cfg: Settings
    var active: Option<seq<Block>>
    var period: Option<string>
    var backups: map<string, seq<Block>>
    var checkpoints: map<string, StateSnapshot>

    ghost function View(): Disk
      reads this
    {
      Disk(active, period, backups, checkpoints)
    }

    /** Opens whatever the directories already hold. */
    constructor (cfg: Settings, disk: Disk)
      requires LimitOk(cfg)
      ensures this.cfg == cfg && View() == disk
    {
      this.cfg := cfg;
      active, period, backups, checkpoints := disk.active, disk.period, disk.backups, disk.checkpoints;
    }

    method AppendFinalized(b: Block, before: ChainState) returns (r: Result<(), ArchiveError>)
      requires before.HasTip()
      modifies this
      ensures match Archive.AppendFinalized(cfg, old(View()), b, before)
        case Ok(disk) => r == Ok(()) && View() == disk
        case Err(e) => r == Err(e) && View() == old(View())
    {
      var month := cfg.period(b);
      if cfg.size(b) > cfg.limit {
        return Err(RecordTooLarge);
      }
      var bytes := ActiveBytes();
      if (period.Some? && period.value != month) || bytes + cfg.size(b) > cfg.limit {
        RollOver(before, if period.Some? then period.value else month);
      }
      active := Some((if active.Some? then active.value else []) + [b]);
      period := Some(month);
      r := Ok(());
    }

    /** `directory_bytes`: the length of every file, added up with saturation. */
    method ActiveBytes() returns (bytes: nat)
      ensures bytes == DirectoryBytes(cfg, View())
    {
      bytes := 0;
      if active.Some? {
        var i := 0;
        while i < |active.value|
          invariant 0 <= i <= |active.value|
          invariant bytes == BlockBytes(cfg.size, active.value[..i])
        {
          assert active.value[..i + 1][..i] == active.value[..i];
          bytes := bytes + cfg.size(active.value[i]);
          i := i + 1;
        }
        assert active.value[..i] == active.value;
      }
      bytes := Min(bytes + if period.Some? then |period.value| else 0, U64_MAX);
    }

    method RollOver(chain: ChainState, month: string)
      requires chain.HasTip()
      modifies this
      ensures View() == Rollover(old(View()), chain, month)
    {
      if active.None? {
        return;
      }
      var snapshot := TakeSnapshot(chain);
      checkpoints := checkpoints[CheckpointName(month, snapshot.height) := snapshot];
      var name := UniqueBackupPath(month);
      backups := backups[name := active.value];
      active := None;
      period := None;
    }

    /** Counts part numbers up until a name is free; the backups are finitely many. */
    method UniqueBackupPath(month: string) returns (name: string)
      ensures name == FreeBackupName(backups, month)
    {
      name := BackupName(month);
      if name !in backups {
        return;
      }
      var part, left := 2, backups.Keys;
      name := PartName(month, part);
      while name in backups
        invariant part >= 2 && name == PartName(month, part)
        invariant left <= backups.Keys
        invariant FreePart(backups.Keys, month, 2) == FreePart(left, month, part)
        decreases |left|
      {
        left := left - {name};
        part := part + 1;
        name := PartName(month, part);
      }
    }

    /** `list_files` yields the names in any order; the last one after sorting is loaded. */
    method LoadLatestSnapshot(listing: seq<string>) returns (r: Option<StateSnapshot>)
      requires Listing(listing, checkpoints)
      ensures r.None? <==> checkpoints == map[]
      ensures r.Some? ==> exists name :: Greatest(name, checkpoints) && r == Some(checkpoints[name])
    {
      ListingMembers(listing, checkpoints);
      TextOrder();
      SortFacts(TextLe, listing);
      var names := Sort(TextLe, listing);
      if names == [] {
        assert forall n :: n !in checkpoints;
        return None;
      }
      var last := names[|names| - 1];
      assert last in checkpoints;
      forall n | n in checkpoints ensures TextLe(n, last) {
        assert n in names;
        var i :| 0 <= i < |names| && names[i] == n;
        TextLeTotal(n, n);
      }
      assert Greatest(last, checkpoints);
      r := Some(checkpoints[last]);
    }

    /** Reads the backups in listing order, then sorts the blocks by height. */
    method ReadBackupBlocks(listing: seq<string>) returns (blocks: seq<Block>)
      requires Listing(listing, backups)
      ensures forall n :: n in listing ==> n in backups
      ensures blocks == Sort(LowerBlock, Contents(backups, listing))
    {
      ListingMembers(listing, backups);
      blocks := [];
      var i := 0;
      while i < |listing|
        invariant 0 <= i <= |listing|
        invariant forall n :: n in listing[..i] ==> n in backups
        invariant blocks == Contents(backups, listing[..i])
      {
        assert listing[..i + 1][..i] == listing[..i];
        assert listing[i] in listing;
        blocks := blocks + backups[listing[i]];
        i := i + 1;
      }
      assert listing[..i] == listing;
      blocks := Sort(LowerBlock, blocks);
    }
  }
}
