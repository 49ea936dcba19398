/** The multi-file journal protocol of internal/rai/client_config_restore.go: record intent, replace the
    file, roll back on failure, recover after an interruption. A save may stop between any two writes. */
module ClientJournal {
  import opened Wrappers
  import opened ConfigTree
  import opened NamedProviders
  import opened ClientRestore
  import opened CredentialGroups

  type Bytes = string

  /** The text codec of one format. encode sees the original text, which it patches. */
  datatype Codec = Codec(decode: Bytes -> Option<Doc>, encode: (Option<Bytes>, Doc, Doc) -> Option<Bytes>)

  /** What recovery relies on: blank text is the empty document, encoding succeeds and is read back. */
  ghost predicate Faithful(codec: Codec) {
    && codec.decode("") == Some(map[])
    && forall raw, before, doc :: var bytes := codec.encode(raw, before, doc);
         bytes.Some? && codec.decode(bytes.value) == Some(doc)
  }

  /** An absent file decodes to the empty document. */
  function Decode(codec: Codec, raw: Option<Bytes>): Option<Doc> {
    if raw.None? then Some(map[]) else codec.decode(raw.value)
  }

  /** A loaded file: its bytes, the tree they decode to, and the tree to install. */
  datatype ClientFile = ClientFile(raw: Option<Bytes>, before: Doc, document: Doc)

  predicate Loaded(codec: Codec, f: ClientFile) {
    Decode(codec, f.raw) == Some(f.before)
  }

  /** An unchanged document renders to the bytes it was read from; None is an encoding error. */
  function Render(codec: Codec, f: ClientFile, doc: Doc): Option<Option<Bytes>> {
    if f.before == doc then Some(f.raw)
    else
      var bytes := codec.encode(f.raw, f.before, doc);
      if bytes.None? then None else Some(bytes)
  }

  datatype Record = Record(version: int, agent: string, profile: string, before: Option<Bytes>, after: Option<Bytes>)

  /** A journal file either holds a record or cannot be read as one. */
  datatype JournalFile = Valid(record: Record) | Garbage

  predicate Readable(j: JournalFile, agent: string) {
    j.Valid? && j.record.version == 1 && j.record.agent == agent
  }

  /** The files of one agent and their journals, by position. */
  type Configs = map<nat, Bytes>

  type Journals = map<nat, JournalFile>

  function Lookup<T>(m: map<nat, T>, i: nat): Option<T> {
    if i in m then Some(m[i]) else None
  }

  /** Writing nil creates an empty file. */
  function Written(raw: Option<Bytes>): Bytes {
    if raw.None? then "" else raw.value
  }

  // ---------- The plans, computed before anything is written ----------

  datatype SavePlan = SavePlan(file: ClientFile, after: Option<Bytes>, record: Record, oldJournal: Option<JournalFile>)

  /** The tree restore both commands run when the file is not byte for byte the installed one. */
  ghost function Unmerged(codec: Codec, agent: string, f: ClientFile, record: Record): Option<Option<Bytes>> {
    var current, before, after := Decode(codec, f.raw), Decode(codec, record.before), Decode(codec, record.after);
    if current.None? || before.None? || after.None? then None
    else Render(codec, f, Configured(agent, current.value, before.value, after.value))
  }

  ghost function PlanSave(codec: Codec, agent: string, profile: string, f: ClientFile,
        journal: Option<JournalFile>): Option<SavePlan> {
    var after := Render(codec, f, f.document);
    if after.None? then None
    else if journal.None? then
      Some(SavePlan(f, after.value, Record(1, agent, profile, f.raw, after.value), None))
    else if !Readable(journal.value, agent) then None
    else
      var previous := journal.value.record;
      var baseline := if f.raw == previous.after then Some(previous.before) else Unmerged(codec, agent, f, previous);
      if baseline.None? then None
      else Some(SavePlan(f, after.value, Record(1, agent, profile, baseline.value, after.value), journal))
  }

  datatype RestorePlan = Skip | Refuse | Write(raw: Option<Bytes>)

  ghost function PlanRestore(codec: Codec, agent: string, profile: string, f: ClientFile,
        journal: Option<JournalFile>): RestorePlan {
    if journal.None? then Skip
    else if !Readable(journal.value, agent) then Refuse
    else
      var record := journal.value.record;
      if profile != "" && record.profile != profile then Refuse
      else
        var updated := Unmerged(codec, agent, f, record);
        if updated.None? then Refuse
        else Write(if f.raw == record.after then record.before else updated.value)
  }

  method ComputeUnmerged(codec: Codec, agent: string, f: ClientFile, record: Record) returns (r: Option<Option<Bytes>>)
    ensures r == Unmerged(codec, agent, f, record)
  {
    var current, before, after := Decode(codec, f.raw), Decode(codec, record.before), Decode(codec, record.after);
    if current.None? || before.None? || after.None? {
      return None;
    }
    var restored := RestoreConfiguredClient(agent, current.value, before.value, after.value);
    return Render(codec, f, restored);
  }

  /** What a save or restore refuses: a file that cannot be planned, or that changed since it was loaded. */
  ghost predicate SaveBlocked(codec: Codec, agent: string, profile: string, f: ClientFile,
                              config: Option<Bytes>, journal: Option<JournalFile>) {
    PlanSave(codec, agent, profile, f, journal).None? || f.raw != config
  }

  ghost predicate RestoreBlocked(codec: Codec, agent: string, profile: string, f: ClientFile,
                                 config: Option<Bytes>, journal: Option<JournalFile>) {
    var plan := PlanRestore(codec, agent, profile, f, journal);
    plan.Refuse? || (plan.Write? && f.raw != config)
  }

  /** A journal that is unreadable, of another version or agent, or of another profile than the one asked for. */
  predicate Foreign(journal: Option<JournalFile>, agent: string, asked: string) {
    journal.Some? &&
      match journal.value
      case Garbage => true
      case Valid(r) => r.version != 1 || r.agent != agent || (asked != "" && r.profile != asked)
  }

  lemma ForeignIsRefused(codec: Codec, agent: string, profile: string, f: ClientFile, journal: Option<JournalFile>)
    ensures Foreign(journal, agent, profile) ==> PlanRestore(codec, agent, profile, f, journal).Refuse?
    ensures Foreign(journal, agent, "") ==> PlanSave(codec, agent, profile, f, journal).None?
  {
  }

  /** What a save leaves of a file: the document rendered, or the unchanged bytes, and a journal of both states. */
  ghost predicate IsInstalled(codec: Codec, agent: string, profile: string, f: ClientFile,
        previous: Option<JournalFile>,
                              config: Option<Bytes>, journal: Option<JournalFile>) {
    && journal.Some? && journal.value.Valid?
    && var r := journal.value.record;
       && r.version == 1 && r.agent == agent && r.profile == profile
       && r.after == (if f.document == f.before then f.raw else codec.encode(f.raw, f.before, f.document))
       && config == Some(if r.after.Some? then r.after.value else "")
       && (previous.None? ==> r.before == f.raw)
       && (previous.Some? && previous.value.Valid? && previous.value.record.after == f.raw ==>
             r.before == previous.value.record.before)
  }

  lemma PlanInstalls(codec: Codec, agent: string, profile: string, f: ClientFile, journal: Option<JournalFile>)
    ensures var plan := PlanSave(codec, agent, profile, f, journal);
            plan.Some? ==> IsInstalled(codec, agent, profile, f, journal, Some(Written(plan.value.after)),
                Some(Valid(plan.value.record)))
  {
  }

  /** What a restore leaves of a file nobody edited: the bytes the journal kept, or absence. */
  lemma UneditedPlan(codec: Codec, agent: string, profile: string, f: ClientFile, r: Record)
    ensures var plan := PlanRestore(codec, agent, profile, f, Some(Valid(r)));
            plan.Write? && f.raw == r.after ==> plan.raw == r.before
    ensures PlanRestore(codec, agent, profile, f, None).Skip?
  {
  }

  datatype SaveOutcome = Saved | SaveRefused | SaveFailed(clean: bool) | SaveStopped(clean: bool)

  /** How the writes of one file end: all done; one of them failed, once begun or before; or cut off between two. */
  datatype FileOutcome = Wrote | Broke(begun: bool) | Cut(clean: bool)

  datatype RestoreOutcome = Restored(any: bool) | RestoreRefused | RestoreFailed(clean: bool) | RestoreStopped
      | JournalKept

  /** A save is refused or done without a failed write; it fails because of one, cleanly if all undoing writes went
      through; and it stops only when interrupted. */
  predicate SaveHonest(outcome: SaveOutcome, faults: int, before: bool, now: bool) {
    match outcome
    case Saved => faults == 0 && now == before
    case SaveRefused => faults == 0 && now == before
    case SaveFailed(clean) => faults > 0 && (clean <==> faults == 1) && now == before
    case SaveStopped(clean) => now && (clean <==> faults <= 1)
  }

  predicate RestoreHonest(outcome: RestoreOutcome, faults: int, before: bool, now: bool) {
    match outcome
    case Restored(_) => faults == 0 && now == before
    case RestoreRefused => faults == 0 && now == before
    case RestoreFailed(clean) => faults > 0 && (clean <==> faults == 1) && now == before
    case RestoreStopped => now
    case JournalKept => faults == 1 && now == before
  }

  /** The files of one agent, by position: configurations, their journals and their backups. */
  class ClientDisk {
    var configs: Configs
    var journals: Journals
    var backups: Configs
    ghost var faults: nat // writes that have failed
    ghost var stopped: bool // the program has been interrupted

    /** Between any two writes the program may be interrupted. */
    method Interrupted() returns (stop: bool)
      modifies this`stopped
      ensures stopped == (old(stopped) || stop)
    {
      stop := *;
      stopped := stopped || stop;
    }

    // Each write happens completely or not at all.

    method WriteConfig(i: nat, content: Option<Bytes>) returns (ok: bool)
      modifies this`configs, this`faults
      ensures faults == old(faults) + (if ok then 0 else 1)
      ensures configs == if ok then old(configs)[i := Written(content)] else old(configs)
    {
      if * {
        configs := configs[i := Written(content)];
        ok := true;
      } else {
        faults := faults + 1;
        ok := false;
      }
    }

    /** replaceConfigFile: an absent original is put back by removing the file. */
    method ReplaceConfig(i: nat, content: Option<Bytes>) returns (ok: bool)
      modifies this`configs, this`faults
      ensures faults == old(faults) + (if ok then 0 else 1)
      ensures ok ==> Lookup(configs, i) == content
      ensures !ok ==> configs == old(configs)
      ensures forall j | j != i :: Lookup(configs, j) == Lookup(old(configs), j)
    {
      if * {
        configs := if content.None? then configs - {i} else configs[i := content.value];
        ok := true;
      } else {
        faults := faults + 1;
        ok := false;
      }
    }

    method ReplaceJournal(i: nat, content: Option<JournalFile>) returns (ok: bool)
      modifies this`journals, this`faults
      ensures faults == old(faults) + (if ok then 0 else 1)
      ensures ok ==> Lookup(journals, i) == content
      ensures !ok ==> journals == old(journals)
      ensures forall j | j != i :: Lookup(journals, j) == Lookup(old(journals), j)
    {
      if * {
        journals := if content.None? then journals - {i} else journals[i := content.value];
        ok := true;
      } else {
        faults := faults + 1;
        ok := false;
      }
    }

    method WriteBackup(i: nat, content: Bytes) returns (ok: bool)
      modifies this`backups, this`faults
      ensures backups == if ok then old(backups)[i := content] else old(backups)
      ensures faults == old(faults) + (if ok then 0 else 1)
    {
      if * {
        backups := backups[i := content];
        ok := true;
      } else {
        faults := faults + 1;
        ok := false;
      }
    }

    // ---------- Save ----------

    /** Refused exactly when some file cannot be planned. */
    method Plans(codec: Codec, agent: string, profile: string, files: seq<ClientFile>)
      returns (plans: Option<seq<SavePlan>>)
      ensures plans.None?
          <==> exists i: nat :: i < |files| && PlanSave(codec, agent, profile, files[i], Lookup(journals, i)).None?
      ensures plans.Some? ==> |plans.value| == |files| && forall i | 0 <= i < |files| ::
                Some(plans.value[i]) == PlanSave(codec, agent, profile, files[i], Lookup(journals, i))
                && plans.value[i].file == files[i] && plans.value[i].oldJournal == Lookup(journals, i)
    {
      var all: seq<SavePlan> := [];
      for i: nat := 0 to |files|
        invariant |all| == i
        invariant forall k | 0 <= k < i ::
                  Some(all[k]) == PlanSave(codec, agent, profile, files[k], Lookup(journals, k))
                    && all[k].file == files[k] && all[k].oldJournal == Lookup(journals, k)
      {
        var f, journal := files[i], Lookup(journals, i);
        var after := Render(codec, f, f.document);
        if after.None? || (journal.Some? && !Readable(journal.value, agent)) {
          assert PlanSave(codec, agent, profile, files[i], Lookup(journals, i)).None?;
          return None;
        }
        var baseline := f.raw;
        if journal.Some? {
          var previous := journal.value.record;
          if f.raw == previous.after {
            baseline := previous.before;
          } else {
            var unmerged := ComputeUnmerged(codec, agent, f, previous);
            if unmerged.None? {
              assert PlanSave(codec, agent, profile, files[i], Lookup(journals, i)).None?;
              return None;
            }
            baseline := unmerged.value;
          }
        }
        all := all + [SavePlan(f, after.value, Record(1, agent, profile, baseline, after.value), journal)];
      }
      return Some(all);
    }

    /** All or nothing: refused exactly when some file is blocked; a refusal or clean failure leaves every configuration
        and journal as at entry, success leaves every one installed, and a stop between two writes leaves each file in
        one of three states. */
    method SaveClientConfig(codec: Codec, agent: string, profile: string, files: seq<ClientFile>)
      returns (outcome: SaveOutcome)
      modifies this
      ensures outcome.SaveRefused? <==>
                (exists i: nat :: i < |files| && SaveBlocked(codec, agent, profile, files[i],
                                                           Lookup(old(configs), i), Lookup(old(journals), i)))
      ensures outcome.SaveRefused? || outcome == SaveFailed(true) ==>
                configs == old(configs) && journals == old(journals)
      ensures SaveHonest(outcome, faults - old(faults), old(stopped), stopped)
      ensures (exists i: nat :: i < |files| && Foreign(Lookup(old(journals), i), agent, "")) ==> outcome.SaveRefused?
      ensures outcome.Saved? ==> forall i: nat | i < |files| ::
                IsInstalled(codec, agent, profile, files[i], Lookup(old(journals), i),
                            Lookup(configs, i), Lookup(journals, i))
      ensures outcome.Saved? ==> forall i: nat | i < |files| ::
                i !in old(journals) && files[i].raw.Some? ==> Lookup(backups, i) == files[i].raw
      ensures outcome.Saved? || outcome == SaveStopped(true) ==>
                SaveLeaves(codec, agent, profile, files, configs, journals, old(configs), old(journals), outcome.Saved?)
    {
      hide PlanSave;
      hide Render;
      hide Configured;
      hide Readable;
      hide IsInstalled;
      hide Foreign;
      forall i: nat | i < |files|
        ensures var plan := PlanSave(codec, agent, profile, files[i], Lookup(journals, i));
                && (Foreign(Lookup(journals, i), agent, "") ==> plan.None?)
                && (plan.Some? ==> IsInstalled(codec, agent, profile, files[i], Lookup(journals, i),
                                               Some(Written(plan.value.after)), Some(Valid(plan.value.record))))
      {
        ForeignIsRefused(codec, agent, profile, files[i], Lookup(journals, i));
        PlanInstalls(codec, agent, profile, files[i], Lookup(journals, i));
      }
      var planned := Plans(codec, agent, profile, files);
      if planned.None? {
        ghost var i: nat :| i < |files| && PlanSave(codec, agent, profile, files[i], Lookup(journals, i)).None?;
        assert SaveBlocked(codec, agent, profile, files[i], Lookup(configs, i), Lookup(journals, i));
        return SaveRefused;
      }
      var plans := planned.value;
      for i: nat := 0 to |files|
        invariant forall k: nat | k < i :: files[k].raw == Lookup(configs, k)
      {
        if Lookup(configs, i) != files[i].raw {
          assert SaveBlocked(codec, agent, profile, files[i], Lookup(configs, i), Lookup(journals, i));
          return SaveRefused;
        }
      }
      assert forall i: nat | i < |files| ::
          Some(plans[i]) == PlanSave(codec, agent, profile, files[i], Lookup(journals, i));
      outcome := WriteAll(plans);
    }

    /** The writes: for each file its backup, its journal, its configuration; the first failure undoes them all. */
    method WriteAll(plans: seq<SavePlan>) returns (outcome: SaveOutcome)
      requires forall k: nat | k < |plans| ::
                 plans[k].file.raw == Lookup(configs, k) && plans[k].oldJournal == Lookup(journals, k)
      modifies this
      ensures !outcome.SaveRefused? && SaveHonest(outcome, faults - old(faults), old(stopped), stopped)
      ensures outcome == SaveFailed(true) ==> configs == old(configs) && journals == old(journals)
      ensures outcome.Saved? || outcome == SaveStopped(true) ==> forall k: nat ::
                if k < |plans| then SlotBetween(configs, journals, old(configs), old(journals), k, plans[k])
                else SlotKept(configs, journals, old(configs), old(journals), k)
      ensures outcome.Saved? ==> forall k: nat | k < |plans| :: SlotInstalled(configs, journals, k, plans[k])
      ensures outcome.Saved? ==> forall k: nat | k < |plans| :: BackedUp(backups, k, plans[k])
    {
      for i: nat := 0 to |plans|
        invariant faults == old(faults) && stopped == old(stopped)
        invariant forall k: nat | k < i :: SlotInstalled(configs, journals, k, plans[k])
        invariant forall k: nat | k < i :: BackedUp(backups, k, plans[k])
        invariant forall k: nat | k >= i ::
                    Lookup(configs, k) == Lookup(old(configs), k) && Lookup(journals, k) == Lookup(old(journals), k)
      {
        var stop := Interrupted();
        if stop {
          return SaveStopped(true);
        }
        var wrote := WriteFile(i, plans[i]);
        match wrote {
          case Wrote =>
          case Cut(_) => return SaveStopped(true);
          case Broke(begun) =>
            outcome := Rollback(plans, if begun then i + 1 else i, old(configs), old(journals));
            return;
        }
      }
      return Saved;
    }

    /** The writes of one file. Broken off before the journal, nothing has changed; later, the slot is in between. */
    method WriteFile(i: nat, item: SavePlan) returns (wrote: FileOutcome)
      modifies this
      ensures if wrote.Broke? then faults == old(faults) + 1 else faults == old(faults)
      ensures if wrote.Cut? then stopped else stopped == old(stopped)
      ensures forall k: nat | k != i ::
                Lookup(configs, k) == Lookup(old(configs), k) && Lookup(journals, k) == Lookup(old(journals), k)
      ensures SlotBetween(configs, journals, old(configs), old(journals), i, item)
      ensures wrote.Wrote? ==> SlotInstalled(configs, journals, i, item) && BackedUp(backups, i, item)
      ensures forall k: nat | k != i :: Lookup(backups, k) == Lookup(old(backups), k)
      ensures wrote == Broke(false) ==> configs == old(configs) && journals == old(journals)
    {
      if item.oldJournal.None? && item.file.raw.Some? {
        var saved := WriteBackup(i, item.file.raw.value);
        if !saved {
          return Broke(false);
        }
      }
      var ok := ReplaceJournal(i, Some(Valid(item.record)));
      if ok {
        var stop := Interrupted();
        if stop {
          return Cut(true);
        }
        ok := WriteConfig(i, item.after);
      }
      return if ok then Wrote else Broke(true);
    }

    /** Undo the first n plans, last first; clean says whether every undoing write went through. */
    method Rollback(plans: seq<SavePlan>, n: nat, ghost configs0: Configs, ghost journals0: Journals)
      returns (outcome: SaveOutcome)
      requires n <= |plans|
      requires forall k: nat | k < |plans| ::
                 plans[k].file.raw == Lookup(configs0, k) && plans[k].oldJournal == Lookup(journals0, k)
      requires forall k: nat | k < n :: SlotBetween(configs, journals, configs0, journals0, k, plans[k])
      requires forall k: nat | k >= n ::
                 Lookup(configs, k) == Lookup(configs0, k) && Lookup(journals, k) == Lookup(journals0, k)
      modifies this`configs, this`journals, this`faults, this`stopped
      ensures outcome.SaveFailed? || outcome.SaveStopped?
      ensures faults >= old(faults) && (outcome.clean <==> faults == old(faults))
      ensures if outcome.SaveStopped? then stopped else stopped == old(stopped)
      ensures outcome == SaveFailed(true) ==> configs == configs0 && journals == journals0
      ensures outcome == SaveStopped(true) ==> forall k: nat ::
                if k < |plans| then SlotBetween(configs, journals, configs0, journals0, k, plans[k])
                else SlotKept(configs, journals, configs0, journals0, k)
    {
      var clean, i := true, n;
      while i > 0
        invariant i <= n && (clean <==> faults == old(faults)) && faults >= old(faults) && stopped == old(stopped)
        invariant clean ==> forall k: nat | k < i :: SlotBetween(configs, journals, configs0, journals0, k, plans[k])
        invariant clean ==> forall k: nat | k >= i ::
                 Lookup(configs, k) == Lookup(configs0, k) && Lookup(journals, k) == Lookup(journals0, k)
      {
        var stop := Interrupted();
        if stop {
          return SaveStopped(clean);
        }
        i := i - 1;
        var undone := UndoFile(i, plans[i]);
        clean := clean && (undone.Wrote? || undone == Cut(true));
        if undone.Cut? {
          return SaveStopped(clean);
        }
      }
      if clean {
        MapsEqual(configs, configs0);
        MapsEqual(journals, journals0);
      }
      return SaveFailed(clean);
    }

    /** The two undoing writes of one file, tried both unless cut off. */
    method UndoFile(i: nat, item: SavePlan) returns (undone: FileOutcome)
      modifies this`configs, this`journals, this`faults, this`stopped
      ensures if undone.Wrote? || undone == Cut(true) then faults == old(faults) else faults > old(faults)
      ensures if undone.Cut? then stopped else stopped == old(stopped)
      ensures forall k: nat | k != i ::
                Lookup(configs, k) == Lookup(old(configs), k) && Lookup(journals, k) == Lookup(old(journals), k)
      ensures undone.Wrote? ==> Lookup(configs, i) == item.file.raw && Lookup(journals, i) == item.oldJournal
      ensures undone == Cut(true) ==>
                Lookup(configs, i) == item.file.raw && Lookup(journals, i) == Lookup(old(journals), i)
    {
      var first := ReplaceConfig(i, item.file.raw);
      var stop := Interrupted();
      if stop {
        return Cut(first);
      }
      var second := ReplaceJournal(i, item.oldJournal);
      return if first && second then Wrote else Broke(true);
    }

    // ---------- Restore ----------

    method RestorePlans(codec: Codec, agent: string, profile: string, files: seq<ClientFile>)
      returns (plans: Option<seq<RestorePlan>>)
      ensures plans.None?
          <==> exists i: nat :: i < |files| && PlanRestore(codec, agent, profile, files[i], Lookup(journals, i)).Refuse?
      ensures plans.Some? ==> |plans.value| == |files| && forall i: nat | i < |files| ::
                !plans.value[i].Refuse?
                    && plans.value[i] == PlanRestore(codec, agent, profile, files[i], Lookup(journals, i))
                && (plans.value[i].Skip? <==> i !in journals)
    {
      var all: seq<RestorePlan> := [];
      for i := 0 to |files|
        invariant |all| == i
        invariant forall k: nat | k < i ::
                    !all[k].Refuse? && all[k] == PlanRestore(codec, agent, profile, files[k], Lookup(journals, k))
                    && (all[k].Skip? <==> k !in journals)
      {
        var f, journal := files[i], Lookup(journals, i);
        if journal.None? {
          all := all + [Skip];
          continue;
        }
        if !Readable(journal.value, agent) || (profile != "" && journal.value.record.profile != profile) {
          assert PlanRestore(codec, agent, profile, files[i], Lookup(journals, i)).Refuse?;
          return None;
        }
        var record := journal.value.record;
        var updated := ComputeUnmerged(codec, agent, f, record);
        if updated.None? {
          assert PlanRestore(codec, agent, profile, files[i], Lookup(journals, i)).Refuse?;
          return None;
        }
        all := all + [Write(if f.raw == record.after then record.before else updated.value)];
      }
      return Some(all);
    }

    /** Refused exactly when some file is blocked. Journals go only after every configuration has its planned content; a
        clean failure undoes everything. */
    method RestoreAgentConfig(codec: Codec, agent: string, profile: string, files: seq<ClientFile>)
      returns (outcome: RestoreOutcome)
      modifies this
      ensures outcome.RestoreRefused? <==>
                (exists i: nat :: i < |files| && RestoreBlocked(codec, agent, profile, files[i],
                                                           Lookup(old(configs), i), Lookup(old(journals), i)))
      ensures outcome.RestoreRefused? || outcome == RestoreFailed(true) ==>
                configs == old(configs) && journals == old(journals)
      ensures RestoreHonest(outcome, faults - old(faults), old(stopped), stopped)
      ensures !outcome.RestoreRefused? ==>
                RestoreLeaves(codec, agent, profile, files, configs, journals, old(configs), old(journals),
                    outcome.Restored?)
      ensures (exists i: nat :: i < |files| && Foreign(Lookup(old(journals), i), agent, profile)) ==>
                outcome.RestoreRefused?
      ensures outcome.Restored? ==> forall i: nat | i < |files| && i in old(journals) && old(journals)[i].Valid? ::
                files[i].raw == old(journals)[i].record.after ==> Lookup(configs, i) == old(journals)[i].record.before
      ensures outcome.Restored? ==> (outcome.any <==> exists i: nat :: i < |files| && i in old(journals))
    {
      hide PlanRestore;
      hide Readable;
      hide Foreign;
      forall i: nat | i < |files| {
        ForeignIsRefused(codec, agent, profile, files[i], Lookup(journals, i));
      }
      forall i: nat | i < |files| && i in journals && journals[i].Valid? {
        UneditedPlan(codec, agent, profile, files[i], journals[i].record);
      }
      var planned := RestorePlans(codec, agent, profile, files);
      if planned.None? {
        ghost var i: nat :| i < |files| && PlanRestore(codec, agent, profile, files[i], Lookup(journals, i)).Refuse?;
        assert RestoreBlocked(codec, agent, profile, files[i], Lookup(configs, i), Lookup(journals, i));
        return RestoreRefused;
      }
      var plans := planned.value;
      for i: nat := 0 to |files|
        invariant forall k: nat | k < i :: plans[k].Write? ==> files[k].raw == Lookup(configs, k)
      {
        if plans[i].Write? && Lookup(configs, i) != files[i].raw {
          assert RestoreBlocked(codec, agent, profile, files[i], Lookup(configs, i), Lookup(journals, i));
          return RestoreRefused;
        }
      }
      for i := 0 to |plans|
        invariant journals == old(journals) && faults == old(faults) && stopped == old(stopped)
        invariant forall k: nat | k < i :: plans[k].Write? ==> Lookup(configs, k) == plans[k].raw
        invariant forall k: nat | k >= i || plans[k].Skip? :: Lookup(configs, k) == Lookup(old(configs), k)
      {
        var stop := Interrupted();
        if stop {
          return RestoreStopped;
        }
        if plans[i].Write? {
          var ok := ReplaceConfig(i, plans[i].raw);
          if !ok {
            outcome := PutBack(files, plans, i, old(configs));
            return;
          }
        }
      }
      outcome := RemoveJournals(plans);
    }

    /** The journals of the restored files, one by one; any says whether there was one. */
    method RemoveJournals(plans: seq<RestorePlan>) returns (outcome: RestoreOutcome)
      requires forall k: nat | k < |plans| :: plans[k].Write? <==> k in journals
      modifies this`journals, this`faults, this`stopped
      ensures outcome.Restored? || outcome.RestoreStopped? || outcome.JournalKept?
      ensures RestoreHonest(outcome, faults - old(faults), old(stopped), stopped)
      ensures forall k: nat | k >= |plans| || plans[k].Skip? :: Lookup(journals, k) == Lookup(old(journals), k)
      ensures forall k: nat | k < |plans| && plans[k].Write? ::
                Lookup(journals, k).None? || Lookup(journals, k) == Lookup(old(journals), k)
      ensures outcome.Restored? ==> forall k: nat | k < |plans| && plans[k].Write? :: Lookup(journals, k).None?
      ensures outcome.Restored? ==> (outcome.any <==> exists k: nat :: k < |plans| && k in old(journals))
    {
      var any := false;
      for i := 0 to |plans|
        invariant faults == old(faults) && stopped == old(stopped)
        invariant any <==> exists k: nat :: k < i && plans[k].Write?
        invariant forall k: nat | k < i && plans[k].Write? :: Lookup(journals, k).None?
        invariant forall k: nat | k >= i || plans[k].Skip? :: Lookup(journals, k) == Lookup(old(journals), k)
      {
        if plans[i].Write? {
          any := true;
          var stop := Interrupted();
          if stop {
            return RestoreStopped;
          }
          var ok := ReplaceJournal(i, None);
          if !ok {
            return JournalKept;
          }
        }
      }
      if any {
        var k: nat :| k < |plans| && plans[k].Write?;
        assert k in old(journals);
      }
      return Restored(any);
    }

    /** Put the first n restored configurations back to what they were, last first. */
    method PutBack(files: seq<ClientFile>, plans: seq<RestorePlan>, n: nat, ghost configs0: Configs)
          returns (outcome: RestoreOutcome)
      requires n <= |plans| == |files|
      requires forall k: nat | k < |plans| && plans[k].Write? :: files[k].raw == Lookup(configs0, k)
      requires forall k: nat | k < n && plans[k].Write? :: Lookup(configs, k) == plans[k].raw
      requires forall k: nat | k >= n || plans[k].Skip? :: Lookup(configs, k) == Lookup(configs0, k)
      requires forall k: nat | k < |plans| :: !plans[k].Refuse?
      modifies this`configs, this`faults, this`stopped
      ensures outcome.RestoreFailed? || outcome.RestoreStopped?
      ensures faults >= old(faults) && (outcome.RestoreFailed? ==> (outcome.clean <==> faults == old(faults)))
      ensures if outcome.RestoreStopped? then stopped else stopped == old(stopped)
      ensures outcome == RestoreFailed(true) ==> configs == configs0
      ensures forall k: nat | k < |plans| && plans[k].Write? ::
                Lookup(configs, k) == plans[k].raw || Lookup(configs, k) == Lookup(configs0, k)
      ensures forall k: nat | k >= |plans| || plans[k].Skip? :: Lookup(configs, k) == Lookup(configs0, k)
    {
      var clean, i := true, n;
      while i > 0
        invariant i <= n && (clean <==> faults == old(faults)) && faults >= old(faults) && stopped == old(stopped)
        invariant forall k: nat | k < |plans| && plans[k].Write? ::
                    Lookup(configs, k) == plans[k].raw || Lookup(configs, k) == Lookup(configs0, k)
        invariant forall k: nat | k >= |plans| || plans[k].Skip? :: Lookup(configs, k) == Lookup(configs0, k)
        invariant clean ==> forall k: nat | k >= i :: Lookup(configs, k) == Lookup(configs0, k)
      {
        var stop := Interrupted();
        if stop {
          return RestoreStopped;
        }
        i := i - 1;
        if plans[i].Write? {
          var ok := ReplaceConfig(i, files[i].raw);
          clean := clean && ok;
        }
      }
      if clean {
        MapsEqual(configs, configs0);
      }
      return RestoreFailed(clean);
    }
  }

  // ---------- The states a save moves each file through ----------

  ghost predicate SlotKept(configs: Configs, journals: Journals,
                           configs0: Configs, journals0: Journals, i: nat) {
    Lookup(configs, i) == Lookup(configs0, i) && Lookup(journals, i) == Lookup(journals0, i)
  }

  ghost predicate SlotInstalled(configs: Configs, journals: Journals, i: nat, plan: SavePlan) {
    Lookup(configs, i) == Some(Written(plan.after)) && Lookup(journals, i) == Some(Valid(plan.record))
  }

  /** Before the first install into a file, its content is kept beside it. */
  ghost predicate BackedUp(backups: Configs, i: nat, plan: SavePlan) {
    plan.oldJournal.None? && plan.file.raw.Some? ==> Lookup(backups, i) == plan.file.raw
  }

  /** As at entry, or with only the new journal, or with the new journal and the new content. */
  ghost predicate SlotBetween(configs: Configs, journals: Journals,
                              configs0: Configs, journals0: Journals, i: nat, plan: SavePlan) {
    || SlotKept(configs, journals, configs0, journals0, i)
    || (Lookup(configs, i) == Lookup(configs0, i) && Lookup(journals, i) == Some(Valid(plan.record)))
    || SlotInstalled(configs, journals, i, plan)
  }

  /** What a save leaves of all files, finished or stopped anywhere. */
  ghost predicate SaveLeaves(codec: Codec, agent: string, profile: string, files: seq<ClientFile>,
                             configs: Configs, journals: Journals,
                             configs0: Configs, journals0: Journals, finished: bool) {
    forall i: nat :: if i >= |files| then SlotKept(configs, journals, configs0, journals0, i) else
      var plan := PlanSave(codec, agent, profile, files[i], Lookup(journals0, i));
      && plan.Some? && files[i].raw == Lookup(configs0, i)
      && SlotBetween(configs, journals, configs0, journals0, i, plan.value)
      && (finished ==> SlotInstalled(configs, journals, i, plan.value))
  }

  lemma MapsEqual<T>(m: map<nat, T>, n: map<nat, T>)
    requires forall i: nat :: Lookup(m, i) == Lookup(n, i)
    ensures m == n
  {
    forall i: nat
      ensures i in m <==> i in n
      ensures i in m ==> m[i] == n[i]
    {
      assert Lookup(m, i) == Lookup(n, i);
    }
  }

  // ---------- The states a restore moves each file through ----------

  ghost predicate SlotRestored(configs: Configs, journals: Journals,
                               configs0: Configs, journals0: Journals, i: nat, plan: RestorePlan) {
    match plan
    case Skip => SlotKept(configs, journals, configs0, journals0, i)
    case Write(raw) => Lookup(configs, i) == raw && Lookup(journals, i).None?
    case Refuse => false
  }

  ghost predicate SlotRestoring(configs: Configs, journals: Journals,
                                configs0: Configs, journals0: Journals, i: nat, plan: RestorePlan) {
    || SlotRestored(configs, journals, configs0, journals0, i, plan)
    || SlotKept(configs, journals, configs0, journals0, i)
    || (plan.Write? && Lookup(configs, i) == plan.raw && Lookup(journals, i) == Lookup(journals0, i))
  }

  /** What a restore leaves of all files, finished or not. */
  ghost predicate RestoreLeaves(codec: Codec, agent: string, profile: string, files: seq<ClientFile>,
                                configs: Configs, journals: Journals,
                                configs0: Configs, journals0: Journals, finished: bool) {
    forall i: nat :: if i >= |files| then SlotKept(configs, journals, configs0, journals0, i) else
      var plan := PlanRestore(codec, agent, profile, files[i], Lookup(journals0, i));
      && (plan.Write? ==> files[i].raw == Lookup(configs0, i))
      && SlotRestoring(configs, journals, configs0, journals0, i, plan)
      && (finished ==> SlotRestored(configs, journals, configs0, journals0, i, plan))
  }

  // ---------- Recovery ----------

  /** Either nothing was to be installed, or the tree restore recognises the original as not having been changed: see
      ConfiguredKeepsOriginal. */
  ghost predicate Recognisable(agent: string, f: ClientFile) {
    || f.document == f.before
    || (NamedInert(f.before, f.document, "")
        && !(TextModel(agent, f.before) && Get(f.document, "model") == Get(f.before, "model")))
  }

  /** What the installers build is recognisable: they leave the provider list alone, or write their entry into it; and
      the Hermes installer never leaves its model a bare string. */
  lemma InstallIsRecognisable(agent: string, f: ClientFile, entry: Node)
    requires Get(f.before, "") == Get(f.document, "")
    requires agent == "hermes" ==> !TextModel(agent, f.document)
    requires
      var b, a := Get(f.before, NAMED_PROVIDERS), Get(f.document, NAMED_PROVIDERS);
      || a == b
      || (NameOf(entry).Some? && (b.Some? ==> b.value.List?) && a == Some(List(InstallEntry(Items(b), entry))))
    ensures Recognisable(agent, f)
  {
    if Get(f.before, NAMED_PROVIDERS) != Get(f.document, NAMED_PROVIDERS) {
      InstalledListLaws(f.before, f.document, entry);
    }
  }

  /** The one save recovery cannot undo: nothing to install into a file that was not there, which creates it empty. */
  predicate CreatesEmpty(f: ClientFile) {
    f.raw.None? && f.document == f.before
  }

  /** It has done so. */
  predicate LeftEmpty(saved: ClientFile, config: Option<Bytes>) {
    CreatesEmpty(saved) && config == Some("")
  }

  /** What recovery plans for a file that an interrupted or finished first save left behind: never a refusal, and the
      original bytes or absence, except exactly when the file is still the original under an unrecognisable install, or
      was created empty; then it stays empty. */
  lemma RecoveryPlan(codec: Codec, agent: string, profile: string, asked: string, saved: ClientFile, plan: SavePlan,
      f: ClientFile)
    requires Faithful(codec) && Loaded(codec, saved) && Loaded(codec, f)
    requires PlanSave(codec, agent, profile, saved, None) == Some(plan)
    requires asked == "" || asked == profile
    requires f.raw == saved.raw || f.raw == Some(Written(plan.after))
    ensures PlanRestore(codec, agent, asked, f, Some(Valid(plan.record))).Write?
    ensures var raw := PlanRestore(codec, agent, asked, f, Some(Valid(plan.record))).raw;
            && (raw == saved.raw <==> (f.raw == saved.raw ==> Recognisable(agent, saved)) && !LeftEmpty(saved, f.raw))
            && (LeftEmpty(saved, f.raw) ==> raw == Some(""))
  {
    var record := plan.record;
    assert Decode(codec, record.after) == Some(saved.document);
    var merged := Configured(agent, f.before, saved.before, saved.document);
    var bytes := codec.encode(f.raw, f.before, merged);
    assert bytes.Some? && codec.decode(bytes.value) == Some(merged);
    if f.raw == saved.raw {
      ConfiguredKeepsOriginal(agent, saved.before, saved.document);
    }
    if plan.after.None? {
      assert saved.before == map[] && saved.document == map[];
      ConfiguredKeepsOriginal(agent, map[], map[]);
    }
  }

  ghost predicate FirstSave(codec: Codec, files: seq<ClientFile>, configs: Configs, journals: Journals) {
    forall i: nat | i < |files| ::
      Loaded(codec, files[i]) && files[i].raw == Lookup(configs, i) && Lookup(journals, i).None?
  }

  ghost predicate Reloaded(codec: Codec, files: seq<ClientFile>, configs: Configs) {
    forall i: nat | i < |files| :: Loaded(codec, files[i]) && files[i].raw == Lookup(configs, i)
  }

  /** A first save of freshly loaded files is never refused. */
  lemma FirstSaveIsTaken(codec: Codec, agent: string, profile: string, files: seq<ClientFile>,
      configs: Configs, journals: Journals, i: nat)
    requires Faithful(codec) && FirstSave(codec, files, configs, journals) && i < |files|
    ensures !SaveBlocked(codec, agent, profile, files[i], Lookup(configs, i), Lookup(journals, i))
  {
    var bytes := codec.encode(files[i].raw, files[i].before, files[i].document);
    assert bytes.Some?;
  }

  /** The journal names this install, but the file still holds the original. */
  predicate Intended(configs: Configs, journals: Journals, i: nat, f: ClientFile) {
    Lookup(journals, i).Some? && Lookup(configs, i) == f.raw
  }

  /** What decides whether recovery brings the original back. */
  ghost predicate Returns(agent: string, configs: Configs, journals: Journals, i: nat, f: ClientFile) {
    (Intended(configs, journals, i, f) ==> Recognisable(agent, f)) && !LeftEmpty(f, Lookup(configs, i))
  }

  /** Over all files: wherever a first save stopped, the restore of the freshly loaded files is not refused; when it
      completes no journal is left and each file has its original bytes, or is absent again,
          except exactly those that had
      only been journaled with an unrecognisable install and those that were created empty, which stay empty. */
  lemma InterruptedSaveRecovers(codec: Codec, agent: string, profile: string, asked: string,
      saved: seq<ClientFile>, reloaded: seq<ClientFile>, configs0: Configs, journals0: Journals,
      configs1: Configs, journals1: Journals, configs2: Configs, journals2: Journals)
    requires Faithful(codec) && FirstSave(codec, saved, configs0, journals0) && (asked == "" || asked == profile)
    requires SaveLeaves(codec, agent, profile, saved, configs1, journals1, configs0, journals0, false)
    requires |reloaded| == |saved| && Reloaded(codec, reloaded, configs1)
    ensures forall i: nat | i < |saved| ::
              !RestoreBlocked(codec, agent, asked, reloaded[i], Lookup(configs1, i), Lookup(journals1, i))
    ensures RestoreLeaves(codec, agent, asked, reloaded, configs2, journals2, configs1, journals1, true) ==>
              forall i: nat ::
                if i >= |saved| then SlotKept(configs2, journals2, configs0, journals0, i)
                else
                  && Lookup(journals2, i).None?
                  && (Lookup(configs2, i) == saved[i].raw <==> Returns(agent, configs1, journals1, i, saved[i]))
                  && (LeftEmpty(saved[i], Lookup(configs1, i)) ==> Lookup(configs2, i) == Some(""))
  {
    forall i: nat | i < |saved|
      ensures !RestoreBlocked(codec, agent, asked, reloaded[i], Lookup(configs1, i), Lookup(journals1, i))
      ensures RestoreLeaves(codec, agent, asked, reloaded, configs2, journals2, configs1, journals1, true) ==>
                && Lookup(journals2, i).None?
                && (Lookup(configs2, i) == saved[i].raw <==> Returns(agent, configs1, journals1, i, saved[i]))
                && (LeftEmpty(saved[i], Lookup(configs1, i)) ==> Lookup(configs2, i) == Some(""))
    {
      FileRecovers(codec, agent, profile, asked, saved[i], reloaded[i], i,
                   configs0, journals0, configs1, journals1, configs2, journals2);
    }
  }

  /** The same of one file. */
  lemma FileRecovers(codec: Codec, agent: string, profile: string, asked: string, saved: ClientFile, f: ClientFile,
        i: nat,
      configs0: Configs, journals0: Journals, configs1: Configs, journals1: Journals,
      configs2: Configs, journals2: Journals)
    requires Faithful(codec) && Loaded(codec, saved) && Loaded(codec, f) && (asked == "" || asked == profile)
    requires PlanSave(codec, agent, profile, saved, None).Some?
    requires saved.raw == Lookup(configs0, i) && Lookup(journals0, i).None? && f.raw == Lookup(configs1, i)
    requires SlotBetween(configs1, journals1, configs0, journals0, i,
              PlanSave(codec, agent, profile, saved, None).value)
    ensures !RestoreBlocked(codec, agent, asked, f, Lookup(configs1, i), Lookup(journals1, i))
    ensures var restored := PlanRestore(codec, agent, asked, f, Lookup(journals1, i));
            SlotRestored(configs2, journals2, configs1, journals1, i, restored) ==>
              && Lookup(journals2, i).None?
              && (Lookup(configs2, i) == saved.raw <==> Returns(agent, configs1, journals1, i, saved))
              && (LeftEmpty(saved, Lookup(configs1, i)) ==> Lookup(configs2, i) == Some(""))
  {
    hide Recognisable;
    var plan := PlanSave(codec, agent, profile, saved, None).value;
    if Lookup(journals1, i).Some? {
      RecoveryPlan(codec, agent, profile, asked, saved, plan, f);
      hide PlanSave;
      hide PlanRestore;
    }
  }

  /** A recovery that itself stops, fails or cannot remove a journal leaves the file recoverable again. */
  lemma RecoveryStaysRecoverable(codec: Codec, agent: string, profile: string, asked: string, saved: ClientFile,
      plan: SavePlan, f: ClientFile, i: nat, configs0: Configs, journals0: Journals,
      configs1: Configs, journals1: Journals, configs2: Configs, journals2: Journals)
    requires Faithful(codec) && Loaded(codec, saved) && Loaded(codec, f) && Recognisable(agent, saved)
              && !CreatesEmpty(saved)
    requires PlanSave(codec, agent, profile, saved, None) == Some(plan)
    requires asked == "" || asked == profile
    requires saved.raw == Lookup(configs0, i) && Lookup(journals0, i).None?
    requires SlotBetween(configs1, journals1, configs0, journals0, i, plan)
    requires f.raw == Lookup(configs1, i)
    requires SlotRestoring(configs2, journals2, configs1, journals1, i,
              PlanRestore(codec, agent, asked, f, Lookup(journals1, i)))
    ensures SlotBetween(configs2, journals2, configs0, journals0, i, plan)
  {
    if Lookup(journals1, i).Some? {
      RecoveryPlan(codec, agent, profile, asked, saved, plan, f);
    }
  }

  /** Saving again over an installed file, however the user edited it since, and then restoring gives exactly what
      restoring the edited file would have given; only a save that creates an empty file is excepted. */
  lemma RepeatedSaveKeepsBaseline(codec: Codec, agent: string, profile: string, asked: string, f: ClientFile,
      first: Record, again: ClientFile)
    requires Faithful(codec) && Loaded(codec, f) && Loaded(codec, again) && !CreatesEmpty(f)
    requires Readable(Valid(first), agent) && (asked == "" || asked == first.profile == profile)
    requires Decode(codec, first.before).Some? && Decode(codec, first.after).Some?
    requires again.raw == PlanSave(codec, agent, profile, f, Some(Valid(first))).value.after
    ensures var plan := PlanSave(codec, agent, profile, f, Some(Valid(first))).value;
            && PlanRestore(codec, agent, asked, again, Some(Valid(plan.record)))
               == PlanRestore(codec, agent, asked, f, Some(Valid(first)))
            && PlanRestore(codec, agent, asked, f, Some(Valid(first))).Write?
  {
  }

  /** So what the user edited in the first install survives a second one and the restore after it. */
  lemma EditsSurviveSaves(codec: Codec, agent: string, profile: string, f: ClientFile, first: Record,
      again: ClientFile, p: Path)
    requires Faithful(codec) && Loaded(codec, f) && Loaded(codec, again) && !CreatesEmpty(f)
    requires Readable(Valid(first), agent) && f.raw != first.after
    requires Decode(codec, first.before).Some? && Decode(codec, first.after).Some?
    requires again.raw == PlanSave(codec, agent, profile, f, Some(Valid(first))).value.after
    requires AvoidsNamed("", p) && !IsTable(At(f.before, p))
    requires At(f.before, p) != At(Decode(codec, first.after).value, p)
    ensures var plan := PlanSave(codec, agent, profile, f, Some(Valid(first))).value;
            var restored := PlanRestore(codec, agent, "", again, Some(Valid(plan.record)));
            && restored.Write? && Decode(codec, restored.raw).Some?
            && At(Decode(codec, restored.raw).value, p) == At(f.before, p)
  {
    RepeatedSaveKeepsBaseline(codec, agent, profile, "", f, first, again);
    var before, after := Decode(codec, first.before).value, Decode(codec, first.after).value;
    var merged := Configured(agent, f.before, before, after);
    ConfiguredEditsSurvive(agent, f.before, before, after, p);
    var bytes := codec.encode(f.raw, f.before, merged);
    assert bytes.Some? && codec.decode(bytes.value) == Some(merged);
  }

  // ---------- Whole runs of one file ----------

  datatype Slot = Slot(config: Option<Bytes>, journal: Option<JournalFile>)

  /** What a command does to one file: the whole of it, or only its first write. */
  datatype Move =
    | Install(profile: string, doc: Doc)
    | StoppedInstall(profile: string, doc: Doc)   // the journal is written, the configuration is not
    | Recover(asked: string)
    | StoppedRecover(asked: string)            // the configuration is put back, the journal still there

  function SlotOf(configs: Configs, journals: Journals, i: nat): Slot {
    Slot(Lookup(configs, i), Lookup(journals, i))
  }

  /** The file as a command loads it; a file that does not decode is refused. */
  function Load(codec: Codec, s: Slot, doc: Doc): Option<ClientFile> {
    var before := Decode(codec, s.config);
    if before.None? then None else Some(ClientFile(s.config, before.value, doc))
  }

  ghost function SavePlanOf(codec: Codec, agent: string, s: Slot, m: Move): Option<SavePlan>
    requires m.Install? || m.StoppedInstall?
  {
    var f := Load(codec, s, m.doc);
    if f.None? then None else PlanSave(codec, agent, m.profile, f.value, s.journal)
  }

  ghost function RestorePlanOf(codec: Codec, agent: string, s: Slot, m: Move): RestorePlan
    requires m.Recover? || m.StoppedRecover?
  {
    var f := Load(codec, s, map[]);
    if f.None? then Refuse else PlanRestore(codec, agent, m.asked, f.value, s.journal)
  }

  ghost function Step(codec: Codec, agent: string, s: Slot, m: Move): Slot {
    if m.Install? || m.StoppedInstall? then
      var plan := SavePlanOf(codec, agent, s, m);
      if plan.None? then s
      else Slot(if m.Install? then Some(Written(plan.value.after)) else s.config, Some(Valid(plan.value.record)))
    else
      var plan := RestorePlanOf(codec, agent, s, m);
      if !plan.Write? then s else Slot(plan.raw, if m.Recover? then None else s.journal)
  }

  ghost function Run(codec: Codec, agent: string, s: Slot, moves: seq<Move>): Slot
    decreases |moves|
  {
    if moves == [] then s else Run(codec, agent, Step(codec, agent, s, moves[0]), moves[1..])
  }

  /** Each file a save passes, finished or stopped, has made one of these moves, or none. */
  lemma SaveMoves(codec: Codec, agent: string, profile: string, f: ClientFile, i: nat,
      configs: Configs, journals: Journals, configs0: Configs, journals0: Journals)
    requires Loaded(codec, f) && f.raw == Lookup(configs0, i)
    requires PlanSave(codec, agent, profile, f, Lookup(journals0, i)).Some?
    requires SlotBetween(configs, journals, configs0, journals0, i,
              PlanSave(codec, agent, profile, f, Lookup(journals0, i)).value)
    ensures var s := SlotOf(configs0, journals0, i);
            SlotOf(configs, journals, i) in {s, Step(codec, agent, s, StoppedInstall(profile, f.document)),
                                             Step(codec, agent, s, Install(profile, f.document))}
  {
    hide PlanSave;
    assert Load(codec, SlotOf(configs0, journals0, i), f.document) == Some(f);
  }

  /** A restore does not look at the document to install. */
  lemma PlanRestoreReads(codec: Codec, agent: string, asked: string, f: ClientFile, journal: Option<JournalFile>)
    ensures PlanRestore(codec, agent, asked, f.(document := map[]), journal)
              == PlanRestore(codec, agent, asked, f, journal)
  {
  }

  lemma RestoreMoves(codec: Codec, agent: string, asked: string, f: ClientFile, i: nat,
      configs: Configs, journals: Journals, configs0: Configs, journals0: Journals)
    requires Loaded(codec, f) && f.raw == Lookup(configs0, i)
    requires SlotRestoring(configs, journals, configs0, journals0, i,
              PlanRestore(codec, agent, asked, f, Lookup(journals0, i)))
    ensures var s := SlotOf(configs0, journals0, i);
            SlotOf(configs, journals, i) in {s, Step(codec, agent, s, StoppedRecover(asked)),
                                             Step(codec, agent, s, Recover(asked))}
  {
    PlanRestoreReads(codec, agent, asked, f, Lookup(journals0, i));
    hide PlanRestore;
    assert Load(codec, SlotOf(configs0, journals0, i), map[]) == Some(f.(document := map[]));
  }

  /** The snapshots are readable, and the tree restore leaves the original alone. */
  ghost predicate Recognised(codec: Codec, agent: string, r: Record) {
    var b, a := Decode(codec, r.before), Decode(codec, r.after);
    b.Some? && a.Some? && Configured(agent, b.value, b.value, a.value) == b.value
  }

  /** The tree restore of config by r gives the original tree: see ConfiguredRecoversExactly. */
  ghost predicate Recoverable(codec: Codec, agent: string, config: Option<Bytes>, r: Record) {
    var c, b, a := Decode(codec, config), Decode(codec, r.before), Decode(codec, r.after);
    c.Some? && b.Some? && a.Some? && ConfiguredRecovers(agent, c.value, b.value, a.value)
  }

  /** The file holds what the journal installed; or, to give the bytes back, still or again what was there before,
      recognisably; or, to give the tree back, anything that agrees with one of the two key by key. */
  ghost predicate Covered(codec: Codec, agent: string, config: Option<Bytes>, r: Record, exact: bool) {
    || (config.Some? && config == r.after)
    || (if exact then config == r.before && Recognised(codec, agent, r) else Recoverable(codec, agent, config, r))
  }

  /** A stop is harmless if the journal it leaves covers the file it leaves. */
  ghost predicate StopsSafely(codec: Codec, agent: string, s: Slot, m: Move, exact: bool) {
    var t := Step(codec, agent, s, m);
    (m.StoppedInstall? || m.StoppedRecover?) && t != s && t.journal.Some? && t.journal.value.Valid? ==>
      Covered(codec, agent, t.config, t.journal.value.record, exact)
  }

  ghost predicate LegalRun(codec: Codec, agent: string, s: Slot, moves: seq<Move>, exact: bool)
    decreases |moves|
  {
    moves != [] ==>
      && StopsSafely(codec, agent, s, moves[0], exact)
      && LegalRun(codec, agent, Step(codec, agent, s, moves[0]), moves[1..], exact)
  }

  // ---------- The bytes come back ----------

  /** Installing nothing into an absent file. */
  predicate CreatesNow(s: Slot, m: Move) {
    m.Install? && m.doc == map[] && s.config.None?
  }

  ghost predicate EverCreates(codec: Codec, agent: string, s: Slot, moves: seq<Move>)
    decreases |moves|
  {
    moves != [] && (CreatesNow(s, moves[0]) || EverCreates(codec, agent, Step(codec, agent, s, moves[0]), moves[1..]))
  }

  /** What a run leads back to: once created empty, the file stays. */
  function Floor(original: Option<Bytes>, created: bool): Option<Bytes> {
    if created then Some("") else original
  }

  /** What every run that is legal for bytes keeps. */
  ghost predicate BytesInv(codec: Codec, agent: string, s: Slot, original: Option<Bytes>, created: bool) {
    && Decode(codec, original).Some? && (created ==> original.None?)
    && if s.journal.None? then s.config == Floor(original, created) else
         && Readable(s.journal.value, agent)
         && var r := s.journal.value.record;
            && Decode(codec, r.after).Some?
            && (|| (r.before == Floor(original, created) && Covered(codec, agent, s.config, r, true))
                || (created && s.config == Some("") && r.before.None? && r.after.None?))
  }

  /** Taking the journal out gives the bytes back. */
  lemma UnmergedGivesBytes(codec: Codec, agent: string, s: Slot, f: ClientFile, original: Option<Bytes>, created: bool)
    requires Faithful(codec) && BytesInv(codec, agent, s, original, created) && s.journal.Some?
    requires Loaded(codec, f) && f.raw == s.config
    ensures var r := s.journal.value.record;
            && Unmerged(codec, agent, f, r).Some?
            && (if f.raw == r.after then r.before else Unmerged(codec, agent, f, r).value) == Floor(original, created)
  {
    var r := s.journal.value.record;
    var merged := Configured(agent, f.before, Decode(codec, r.before).value, Decode(codec, r.after).value);
    var bytes := codec.encode(f.raw, f.before, merged);
    assert bytes.Some?;
    ConfiguredKeepsOriginal(agent, map[], map[]);
  }

  lemma InstallKeepsBytes(codec: Codec, agent: string, s: Slot, m: Move, original: Option<Bytes>, created: bool)
    requires Faithful(codec) && BytesInv(codec, agent, s, original, created) && (m.Install? || m.StoppedInstall?)
    requires StopsSafely(codec, agent, s, m, true)
    ensures BytesInv(codec, agent, Step(codec, agent, s, m), original, created || CreatesNow(s, m))
  {
    hide Configured;
    hide Recognised;
    var f := Load(codec, s, m.doc).value;
    if s.journal.Some? {
      UnmergedGivesBytes(codec, agent, s, f, original, created);
    }
    var bytes := codec.encode(f.raw, f.before, f.document);
    assert bytes.Some? && codec.decode(bytes.value) == Some(m.doc);
  }

  lemma RecoverKeepsBytes(codec: Codec, agent: string, s: Slot, m: Move, original: Option<Bytes>, created: bool)
    requires Faithful(codec) && BytesInv(codec, agent, s, original, created) && (m.Recover? || m.StoppedRecover?)
    requires StopsSafely(codec, agent, s, m, true)
    ensures BytesInv(codec, agent, Step(codec, agent, s, m), original, created)
    ensures m == Recover("") ==> Step(codec, agent, s, m).journal.None?
  {
    hide Configured;
    hide Recognised;
    if s.journal.Some? {
      UnmergedGivesBytes(codec, agent, s, Load(codec, s, map[]).value, original, created);
    }
  }

  lemma {:induction false} RunKeepsBytes(codec: Codec, agent: string, s: Slot, moves: seq<Move>,
      original: Option<Bytes>, created: bool)
    requires Faithful(codec) && BytesInv(codec, agent, s, original, created) && LegalRun(codec, agent, s, moves, true)
    ensures BytesInv(codec, agent, Run(codec, agent, s, moves), original,
                     created || EverCreates(codec, agent, s, moves))
    decreases |moves|
  {
    hide BytesInv;
    hide Step;
    hide StopsSafely;
    if moves != [] {
      if moves[0].Install? || moves[0].StoppedInstall? {
        InstallKeepsBytes(codec, agent, s, moves[0], original, created);
      } else {
        RecoverKeepsBytes(codec, agent, s, moves[0], original, created);
      }
      RunKeepsBytes(codec, agent, Step(codec, agent, s, moves[0]), moves[1..], original,
                    created || CreatesNow(s, moves[0]));
    }
  }

  // ---------- The tree comes back ----------

  /** What every run that is legal for trees keeps. */
  ghost predicate TreeInv(codec: Codec, agent: string, s: Slot, original: Option<Bytes>) {
    && Decode(codec, original).Some? && (s.config.None? ==> original.None?)
    && if s.journal.None? then Decode(codec, s.config) == Decode(codec, original) else
         && Readable(s.journal.value, agent)
         && var r := s.journal.value.record;
            && Decode(codec, r.before) == Decode(codec, original) && (r.before.None? ==> original.None?)
            && Decode(codec, r.after).Some? && Covered(codec, agent, s.config, r, false)
  }

  /** What the restore plans for a file, as a tree: the original, or the tree restore. */
  lemma PlannedTree(codec: Codec, agent: string, f: ClientFile, r: Record)
    requires Faithful(codec) && Loaded(codec, f)
    requires Decode(codec, r.before).Some? && Decode(codec, r.after).Some?
    ensures var b, a := Decode(codec, r.before).value, Decode(codec, r.after).value;
            && Unmerged(codec, agent, f, r).Some?
            && (Unmerged(codec, agent, f, r).value.None? ==> f.raw.None?)
            && Decode(codec, Unmerged(codec, agent, f, r).value) == Some(Configured(agent, f.before, b, a))
            && (Configured(agent, f.before, b, a) == b <==> ConfiguredRecovers(agent, f.before, b, a))
  {
    var b, a := Decode(codec, r.before).value, Decode(codec, r.after).value;
    ConfiguredRecoversExactly(agent, f.before, b, a);
    var merged := Configured(agent, f.before, b, a);
    var bytes := codec.encode(f.raw, f.before, merged);
    assert bytes.Some? && codec.decode(bytes.value) == Some(merged);
  }

  /** An absent file, restored by snapshots that are empty too. */
  lemma NothingIsRecoverable(agent: string)
    ensures ConfiguredRecovers(agent, map[], map[], map[])
  {
    ConfiguredKeepsOriginal(agent, map[], map[]);
    ConfiguredRecoversExactly(agent, map[], map[], map[]);
  }

  lemma InstallKeepsTree(codec: Codec, agent: string, s: Slot, m: Move, original: Option<Bytes>)
    requires Faithful(codec) && TreeInv(codec, agent, s, original) && (m.Install? || m.StoppedInstall?)
    requires StopsSafely(codec, agent, s, m, false)
    ensures TreeInv(codec, agent, Step(codec, agent, s, m), original)
    ensures SavePlanOf(codec, agent, s, m).Some?
    ensures var r := SavePlanOf(codec, agent, s, m).value.record;
            && Decode(codec, r.before) == Decode(codec, original) && Decode(codec, r.after) == Some(m.doc)
            && (r.before.None? ==> original.None?)
  {
    hide Configured;
    hide ConfiguredRecovers;
    InstallPlansTree(codec, agent, s, m, original);
    NothingIsRecoverable(agent);
  }

  lemma InstallPlansTree(codec: Codec, agent: string, s: Slot, m: Move, original: Option<Bytes>)
    requires Faithful(codec) && TreeInv(codec, agent, s, original) && (m.Install? || m.StoppedInstall?)
    ensures SavePlanOf(codec, agent, s, m).Some?
    ensures var plan := SavePlanOf(codec, agent, s, m).value;
            var r := plan.record;
            && Decode(codec, r.before) == Decode(codec, original) && Decode(codec, r.after) == Some(m.doc)
            && (r.before.None? ==> original.None?) && plan.after == r.after
            && (r.after.None? ==> s.config.None?)
            && (s.config == r.after <==> Decode(codec, s.config) == Some(m.doc))
            && Readable(Valid(r), agent)
  {
    hide Configured;
    hide ConfiguredRecovers;
    var f := Load(codec, s, m.doc).value;
    if s.journal.Some? {
      PlannedTree(codec, agent, f, s.journal.value.record);
    }
    var bytes := codec.encode(f.raw, f.before, f.document);
    assert bytes.Some? && codec.decode(bytes.value) == Some(m.doc);
  }

  lemma RecoverKeepsTree(codec: Codec, agent: string, s: Slot, m: Move, original: Option<Bytes>)
    requires Faithful(codec) && TreeInv(codec, agent, s, original) && (m.Recover? || m.StoppedRecover?)
    requires StopsSafely(codec, agent, s, m, false)
    ensures TreeInv(codec, agent, Step(codec, agent, s, m), original)
    ensures m == Recover("") ==> Step(codec, agent, s, m).journal.None?
  {
    hide Configured;
    hide ConfiguredRecovers;
    if s.journal.Some? {
      PlannedTree(codec, agent, Load(codec, s, map[]).value, s.journal.value.record);
    }
  }

  lemma {:induction false} RunKeepsTree(codec: Codec, agent: string, s: Slot, moves: seq<Move>, original: Option<Bytes>)
    requires Faithful(codec) && TreeInv(codec, agent, s, original) && LegalRun(codec, agent, s, moves, false)
    ensures TreeInv(codec, agent, Run(codec, agent, s, moves), original)
    decreases |moves|
  {
    hide TreeInv;
    hide Step;
    hide StopsSafely;
    if moves != [] {
      if moves[0].Install? || moves[0].StoppedInstall? {
        InstallKeepsTree(codec, agent, s, moves[0], original);
      } else {
        RecoverKeepsTree(codec, agent, s, moves[0], original);
      }
      RunKeepsTree(codec, agent, Step(codec, agent, s, moves[0]), moves[1..], original);
    }
  }

  lemma {:induction false} UnreadableStays(codec: Codec, agent: string, original: Option<Bytes>, moves: seq<Move>)
    requires Decode(codec, original).None?
    ensures Run(codec, agent, Slot(original, None), moves) == Slot(original, None)
    ensures !EverCreates(codec, agent, Slot(original, None), moves)
    decreases |moves|
  {
    if moves != [] {
      UnreadableStays(codec, agent, original, moves[1..]);
    }
  }

  /** From any file and after any legal run of saves, repeated saves and restores, stopped ones included, one more
      restore leaves no journal. If every stop is safe for bytes, the file has its original bytes, or is absent again,
      unless it was created empty, and then it is empty; if every stop is safe for trees, it has its original tree. */
  lemma {:induction false} RunThenRestore(codec: Codec, agent: string, original: Option<Bytes>, moves: seq<Move>,
        exact: bool)
    requires Faithful(codec) && LegalRun(codec, agent, Slot(original, None), moves, exact)
    ensures var s0 := Slot(original, None);
            var last := Step(codec, agent, Run(codec, agent, s0, moves), Recover(""));
            && last.journal.None?
            && Decode(codec, last.config) == Decode(codec, original)
            && (exact ==> last.config == Floor(original, EverCreates(codec, agent, s0, moves)))
  {
    var s0 := Slot(original, None);
    var s := Run(codec, agent, s0, moves);
    if Decode(codec, original).None? {
      UnreadableStays(codec, agent, original, moves);
    } else if exact {
      RunKeepsBytes(codec, agent, s0, moves, original, false);
      RecoverKeepsBytes(codec, agent, s, Recover(""), original, EverCreates(codec, agent, s0, moves));
    } else {
      RunKeepsTree(codec, agent, s0, moves, original);
      RecoverKeepsTree(codec, agent, s, Recover(""), original);
    }
  }

  // ---------- The stops that lose the original ----------

  /** Why LegalRun excludes exactly these: after any stop in a legal run, restoring gives the original tree back if and
      only if the stop was safe. */
  lemma StopRecoversExactly(codec: Codec, agent: string, s: Slot, m: Move, original: Option<Bytes>)
    requires Faithful(codec) && TreeInv(codec, agent, s, original) && (m.StoppedInstall? || m.StoppedRecover?)
    ensures var last := Step(codec, agent, Step(codec, agent, s, m), Recover(""));
            && last.journal.None?
            && (Decode(codec, last.config) == Decode(codec, original) <==> StopsSafely(codec, agent, s, m, false))
  {
    hide Configured;
    hide ConfiguredRecovers;
    NothingIsRecoverable(agent);
    var t := Step(codec, agent, s, m);
    if m.StoppedInstall? {
      InstallPlansTree(codec, agent, s, m, original);
    } else if s.journal.Some? {
      PlannedTree(codec, agent, Load(codec, s, map[]).value, s.journal.value.record);
    }
    if t == s {
      RecoverKeepsTree(codec, agent, s, Recover(""), original);
    } else {
      PlannedTree(codec, agent, Load(codec, t, map[]).value, t.journal.value.record);
    }
  }

  /** From the original: a repeated save that stops between its two writes can be undone exactly when it installs the
      same
      again, or at every key the walk decides the first install agrees with the original or with the second, taking the
      credential group as one key. */
  lemma RepeatedSaveRecovers(codec: Codec, agent: string, original: Option<Bytes>, d1: Doc, d2: Doc)
    requires Faithful(codec) && Decode(codec, original).Some?
    ensures var last := Run(codec, agent, Slot(original, None),
                            [Install("", d1), StoppedInstall("", d2), Recover("")]);
            && last.journal.None?
            && (Decode(codec, last.config) == Decode(codec, original)
                <==> d1 == d2 || ConfiguredRecovers(agent, d1, Decode(codec, original).value, d2))
  {
    hide Configured;
    hide ConfiguredRecovers;
    var s0, stop := Slot(original, None), StoppedInstall("", d2);
    var s1 := Step(codec, agent, s0, Install("", d1));
    InstallKeepsTree(codec, agent, s0, Install("", d1), original);
    InstallPlansTree(codec, agent, s1, stop, original);
    StopRecoversExactly(codec, agent, s1, stop, original);
    var moves := [Install("", d1), stop, Recover("")];
    assert moves[1..] == [stop, Recover("")] && moves[1..][1..] == [Recover("")] && [Recover("")][1..] == [];
    assert Run(codec, agent, s0, moves) == Run(codec, agent, s1, [stop, Recover("")]);
    assert Run(codec, agent, s1, [stop, Recover("")]) == Step(codec, agent, Step(codec, agent, s1, stop), Recover(""));
  }

  function OneKey(value: int): Doc {
    map["defaultModel" := Leaf(Number(value))]
  }

  /** Three different values of one key: the restore takes the first install for a user edit. */
  lemma RepeatedSaveStoppedLoses(codec: Codec, original: Bytes)
    requires Faithful(codec) && codec.decode(original) == Some(OneKey(0))
    ensures var last := Run(codec, "pi", Slot(Some(original), None),
                            [Install("", OneKey(1)), StoppedInstall("", OneKey(2)), Recover("")]);
            last.journal.None? && Decode(codec, last.config) != Some(OneKey(0))
  {
    RepeatedSaveRecovers(codec, "pi", Some(original), OneKey(1), OneKey(2));
    assert forall v, w | v != w :: OneKey(v)["defaultModel"] != OneKey(w)["defaultModel"];
    assert NAMED_PROVIDERS[0] == 'c' && "defaultModel"[0] == 'd';
    assert !KeyRecovers(OneKey(1), OneKey(0), OneKey(2), "", "defaultModel");
    assert Matches(OneKey(1), OneKey(2), Group("pi"));
  }
}
