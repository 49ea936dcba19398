/** The permanent and temporary Codex journals of internal/rai/codex_restore.go and codex_configure.go: every
    run of configure, temporary switch and unconfigure leads back to the original configuration. */
module CodexJournal {
  import opened Wrappers
  import opened ConfigTree
  import opened CodexRestore

  type Bytes = string

  /** The TOML codec: marshalling depends on the tree only. */
  datatype Codec = Codec(decode: Bytes -> Option<Doc>, encode: Doc -> Bytes)

  ghost predicate Faithful(codec: Codec) {
    forall doc :: codec.decode(codec.encode(doc)) == Some(doc)
  }

  /** An absent file and an empty one compare equal and decode alike. */
  function Content(raw: Option<Bytes>): Bytes {
    if raw.None? then "" else raw.value
  }

  function Tree(codec: Codec, raw: Option<Bytes>): Option<Doc> {
    codec.decode(Content(raw))
  }

  datatype Journal = Journal(before: Option<Bytes>, after: Bytes)

  datatype Files = Files(config: Option<Bytes>, managed: Option<Journal>, temporary: Option<Journal>) {
    function Slot(temp: bool): Option<Journal> {
      if temp then temporary else managed
    }

    function WithSlot(temp: bool, j: Option<Journal>): Files {
      if temp then this.(temporary := j) else this.(managed := j)
    }
  }

  // ---------- What each command does when nothing fails ----------

  /** The configuration with the changes of j taken out of it. */
  ghost function Undone(codec: Codec, config: Option<Bytes>, j: Journal): Option<Option<Bytes>> {
    var current, before, after := Tree(codec, config), Tree(codec, j.before), codec.decode(j.after);
    if current.None? || before.None? || after.None? then None
    else if Content(config) == j.after then Some(j.before)
    else Some(Some(codec.encode(Codex(current.value, before.value, after.value, ""))))
  }

  /** The journal a configure records before it writes; None when it refuses. */
  ghost function Intent(codec: Codec, s: Files, doc: Doc, temp: bool): Option<Journal> {
    if s.temporary.Some? || Tree(codec, s.config).None? then None
    else if s.Slot(temp).None? then Some(Journal(s.config, codec.encode(doc)))
    else
      var baseline := Undone(codec, s.config, s.Slot(temp).value);
      if baseline.None? then None else Some(Journal(baseline.value, codec.encode(doc)))
  }

  datatype Command =
    | Configure(doc: Doc, temp: bool)
    | InterruptedConfigure(doc: Doc, temp: bool) // stopped after the journal, before the configuration
    | Unconfigure
    | InterruptedUnconfigure                     // stopped after the configuration, before the journal is removed

  ghost function Step(codec: Codec, s: Files, c: Command): Files {
    match c
    case Configure(doc, temp) =>
      var j := Intent(codec, s, doc, temp);
      if j.None? then s else s.WithSlot(temp, j).(config := Some(j.value.after))
    case InterruptedConfigure(doc, temp) =>
      var j := Intent(codec, s, doc, temp);
      if j.None? then s else s.WithSlot(temp, j)
    case Unconfigure =>
      var updated := Withdrawn(codec, s);
      if updated.None? then s else s.WithSlot(s.temporary.Some?, None).(config := Some(Content(updated.value)))
    case InterruptedUnconfigure =>
      var updated := Withdrawn(codec, s);
      if updated.None? then s else s.(config := Some(Content(updated.value)))
  }

  /** What unconfigure writes: the temporary journal comes off before the permanent one. */
  ghost function Withdrawn(codec: Codec, s: Files): Option<Option<Bytes>> {
    var j := s.Slot(s.temporary.Some?);
    if j.None? then None else Undone(codec, s.config, j.value)
  }

  ghost function Run(codec: Codec, s: Files, commands: seq<Command>): Files
    decreases |commands|
  {
    if commands == [] then s else Run(codec, Step(codec, s, commands[0]), commands[1..])
  }

  // ---------- The commands, step by step ----------

  datatype Outcome = Done | Refused | Failed(clean: bool) | Stopped

  /** A command is done without a failed write, fails because of one, and stops only when interrupted. */
  class CodexFiles {
    var config: Option<Bytes>
    var managed: Option<Journal>
    var temporary: Option<Journal>
    ghost var faults: nat // writes that have failed
    ghost var stopped: bool // the program has been interrupted

    ghost function State(): Files
      reads this
    {
      Files(config, managed, temporary)
    }

    /** Between any two writes the program may be interrupted. */
    method Interrupted() returns (stop: bool)
      modifies this`stopped
      ensures stopped == (old(stopped) || stop)
    {
      stop := *;
      stopped := stopped || stop;
    }

    method WriteConfig(content: Bytes) returns (ok: bool)
      modifies this`config, this`faults
      ensures faults == old(faults) + (if ok then 0 else 1)
      ensures config == if ok then Some(content) else old(config)
    {
      if * {
        config := Some(content);
        ok := true;
      } else {
        faults := faults + 1;
        ok := false;
      }
    }

    method ReplaceJournal(temp: bool, j: Option<Journal>) returns (ok: bool)
      modifies this`managed, this`temporary, this`faults
      ensures faults == old(faults) + (if ok then 0 else 1)
      ensures State() == if ok then old(State()).WithSlot(temp, j) else old(State())
    {
      if * {
        if temp {
          temporary := j;
        } else {
          managed := j;
        }
        ok := true;
      } else {
        faults := faults + 1;
        ok := false;
      }
    }

    method ComputeUndone(codec: Codec, j: Journal) returns (r: Option<Option<Bytes>>)
      ensures r == Undone(codec, config, j)
    {
      var current, before, after := Tree(codec, config), Tree(codec, j.before), codec.decode(j.after);
      if current.None? || before.None? || after.None? {
        return None;
      }
      if Content(config) == j.after {
        return Some(j.before);
      }
      var restored := RestoreCodexFieldsAt(current.value, before.value, after.value, "");
      return Some(Some(codec.encode(restored)));
    }

    /** Intent first, then the configuration; if that write fails the previous journal goes back. */
    method SaveCodexManaged(codec: Codec, doc: Doc, temp: bool) returns (outcome: Outcome)
      modifies this
      ensures outcome.Refused? <==> Intent(codec, old(State()), doc, temp).None?
      ensures match outcome
              case Failed(clean) => faults > old(faults) && (clean <==> faults == old(faults) + 1)
                  && stopped == old(stopped)
              case Stopped => stopped && faults == old(faults)
              case _ => faults == old(faults) && stopped == old(stopped)
      ensures outcome.Refused? || outcome == Failed(true) ==> State() == old(State())
      ensures outcome.Done? ==> State() == Step(codec, old(State()), Configure(doc, temp))
      // a pending temporary configuration is refused; otherwise the new text and both states are on disk
      ensures old(temporary).Some? || codec.decode(if old(config).Some? then old(config).value else "").None? ==>
                outcome.Refused?
      ensures outcome.Done? ==>
                var previous, j := if temp then old(temporary) else old(managed), if temp then temporary else managed;
                && config == Some(codec.encode(doc)) && j.Some? && j.value.after == codec.encode(doc)
                && (previous.None? ==> j.value.before == old(config))
                && (previous.Some? && old(config) == Some(previous.value.after) ==>
                    j.value.before == previous.value.before)
                && (if temp then managed == old(managed) else temporary == old(temporary))
      ensures outcome.Stopped? || outcome == Failed(false) ==>
                State() == old(State()) || State() == Step(codec, old(State()), InterruptedConfigure(doc, temp))
    {
      if temporary.Some? || Tree(codec, config).None? {
        return Refused;
      }
      var previous := if temp then temporary else managed;
      var baseline := config;
      if previous.Some? {
        var undone := ComputeUndone(codec, previous.value);
        if undone.None? {
          return Refused;
        }
        baseline := undone.value;
      }
      var stop := Interrupted();
      if stop {
        return Stopped;
      }
      var after := codec.encode(doc);
      var ok := ReplaceJournal(temp, Some(Journal(baseline, after)));
      if !ok {
        return Failed(true);
      }
      stop := Interrupted();
      if stop {
        return Stopped;
      }
      ok := WriteConfig(after);
      if !ok {
        ok := ReplaceJournal(temp, previous);
        return Failed(ok);
      }
      return Done;
    }

    method UnconfigureCodex(codec: Codec) returns (outcome: Outcome)
      modifies this
      ensures outcome.Refused? <==> Withdrawn(codec, old(State())).None?
      ensures match outcome
              case Failed(_) => faults == old(faults) + 1 && stopped == old(stopped)
              case Stopped => stopped && faults == old(faults)
              case _ => faults == old(faults) && stopped == old(stopped)
      ensures outcome.Refused? || outcome == Failed(true) ==> State() == old(State())
      ensures outcome.Done? ==> State() == Step(codec, old(State()), Unconfigure)
      // the temporary journal first; over an unedited file, the bytes it kept
      ensures old(temporary).None? && old(managed).None? ==> outcome.Refused?
      ensures outcome.Done? ==>
                var j := if old(temporary).Some? then old(temporary) else old(managed);
                && j.Some? && temporary.None? && managed == (if old(temporary).Some? then old(managed) else None)
                && (old(config) == Some(j.value.after) ==>
                      config == Some(if j.value.before.Some? then j.value.before.value else ""))
      ensures outcome.Stopped? || outcome == Failed(false) ==>
                State() == old(State()) || State() == Step(codec, old(State()), InterruptedUnconfigure)
    {
      var temp := temporary.Some?;
      var journal := if temp then temporary else managed;
      if journal.None? {
        return Refused;
      }
      var updated := ComputeUndone(codec, journal.value);
      if updated.None? {
        return Refused;
      }
      var stop := Interrupted();
      if stop {
        return Stopped;
      }
      var ok := WriteConfig(Content(updated.value));
      if !ok {
        return Failed(true);
      }
      stop := Interrupted();
      if stop {
        return Stopped;
      }
      ok := ReplaceJournal(temp, None);
      return if ok then Done else Failed(false);
    }
  }

  // ---------- The way back ----------

  /** The same configuration: byte for byte, or with the original tree in the codec's own layout. */
  ghost predicate Same(codec: Codec, x: Option<Bytes>, original: Option<Bytes>, exact: bool) {
    Content(x) == Content(original)
        || (!exact && Tree(codec, original).Some? && Content(x) == codec.encode(Tree(codec, original).value))
  }

  /** config carries what j installed, or (after an interruption) a configuration from which j recovers what was there
      before: see RestoreRecoversExactly. */
  ghost predicate Applied(codec: Codec, config: Option<Bytes>, j: Journal, exact: bool) {
    && (exists doc :: j.after == codec.encode(doc))
    && (Content(config) == j.after || (!exact && Recoverable(codec, config, j.before, codec.decode(j.after))))
  }

  ghost predicate Recoverable(codec: Codec, config: Option<Bytes>, before: Option<Bytes>, after: Option<Doc>) {
    && Tree(codec, config).Some? && Tree(codec, before).Some? && after.Some?
    && Recovers(Tree(codec, config).value, Tree(codec, before).value, after.value, "")
  }

  lemma OriginalIsRecoverable(codec: Codec, x: Option<Bytes>, before: Option<Bytes>, doc: Doc)
    requires Faithful(codec) && Same(codec, x, before, false) && Tree(codec, before).Some?
    ensures Recoverable(codec, x, before, Some(doc))
  {
    SameTree(codec, x, before, false);
    CodexKeepsOriginal(Tree(codec, before).value, doc, "");
    RestoreRecoversExactly(Tree(codec, before).value, Tree(codec, before).value, doc, "");
  }

  ghost predicate WithoutTemporary(codec: Codec, config: Option<Bytes>, managed: Option<Journal>,
        original: Option<Bytes>, exact: bool) {
    if managed.None? then Same(codec, config, original, exact)
    else Same(codec, managed.value.before, original, exact) && Applied(codec, config, managed.value, exact)
  }

  /** What every run keeps. */
  ghost predicate Inv(codec: Codec, s: Files, original: Option<Bytes>, exact: bool) {
    && Tree(codec, original).Some?
    && (if s.temporary.None? then WithoutTemporary(codec, s.config, s.managed, original, exact)
        else WithoutTemporary(codec, s.temporary.value.before, s.managed, original, exact)
             && Applied(codec, s.config, s.temporary.value, exact))
  }

  lemma SameTree(codec: Codec, x: Option<Bytes>, original: Option<Bytes>, exact: bool)
    requires Faithful(codec) && Same(codec, x, original, exact)
    ensures Tree(codec, x) == Tree(codec, original)
  {
  }

  /** Taking a journal out of a configuration it was applied to gives the one before it. */
  lemma UndoneIsBefore(codec: Codec, config: Option<Bytes>, j: Journal, exact: bool)
    requires Faithful(codec) && Applied(codec, config, j, exact) && Tree(codec, j.before).Some?
    ensures Undone(codec, config, j).Some? && Same(codec, Undone(codec, config, j).value, j.before, exact)
  {
    var doc :| j.after == codec.encode(doc);
    if Content(config) != j.after {
      RestoreRecoversExactly(Tree(codec, config).value, Tree(codec, j.before).value, doc, "");
    }
  }

  lemma SameTransitive(codec: Codec, x: Option<Bytes>, y: Option<Bytes>, z: Option<Bytes>, exact: bool)
    requires Faithful(codec) && Same(codec, x, y, exact) && Same(codec, y, z, exact) && Tree(codec, z).Some?
    ensures Same(codec, x, z, exact)
  {
    SameTree(codec, y, z, exact);
  }

  lemma SameWithoutTemporary(codec: Codec, x: Option<Bytes>, y: Option<Bytes>, managed: Option<Journal>,
      original: Option<Bytes>, exact: bool)
    requires Faithful(codec) && Tree(codec, original).Some?
    requires Same(codec, x, y, exact) && WithoutTemporary(codec, y, managed, original, exact)
    ensures WithoutTemporary(codec, x, managed, original, exact)
    ensures Tree(codec, y).Some?
  {
    hide Recovers;
    if managed.None? {
      SameTree(codec, y, original, exact);
      SameTransitive(codec, x, y, original, exact);
    } else {
      SameTree(codec, x, y, exact);
    }
  }

  predicate Interrupts(c: Command) {
    c.InterruptedConfigure? || c.InterruptedUnconfigure?
  }

  /** A configure interrupted over a journal of its kind, from which the original can no longer be recovered: the
      installed configuration agrees neither with the original nor with the new one somewhere. */
  ghost predicate Loses(codec: Codec, s: Files, c: Command) {
    && c.InterruptedConfigure? && s.Slot(c.temp).Some? && s.temporary.None?
    && !Recoverable(codec, s.config, s.Slot(c.temp).value.before, Some(c.doc))
  }

  lemma StepKeepsInv(codec: Codec, s: Files, c: Command, original: Option<Bytes>, exact: bool)
    requires Faithful(codec) && Inv(codec, s, original, exact)
    requires exact ==> !Interrupts(c)
    requires !Loses(codec, s, c)
    ensures Inv(codec, Step(codec, s, c), original, exact)
  {
    hide Recovers;
    if s.temporary.Some? {
      var t := s.temporary.value;
      SameWithoutTemporary(codec, t.before, t.before, s.managed, original, exact);
      TakenOff(codec, s.config, t, exact);
      var updated := Undone(codec, s.config, t).value;
      SameWithoutTemporary(codec, Some(Content(updated)), t.before, s.managed, original, exact);
    } else if s.managed.Some? {
      var m := s.managed.value;
      SameTree(codec, m.before, original, exact);
      TakenOff(codec, s.config, m, exact);
      var updated := Undone(codec, s.config, m).value;
      SameTransitive(codec, updated, m.before, original, exact);
      SameTree(codec, updated, m.before, exact);
    } else {
      SameTree(codec, s.config, original, exact);
    }
    if c.InterruptedConfigure? && s.Slot(c.temp).None? && Tree(codec, s.config).Some? {
      OriginalIsRecoverable(codec, s.config, s.config, c.doc);
    }
  }

  /** What an unconfigure writes is the configuration before j, and j still recovers from it. */
  lemma TakenOff(codec: Codec, config: Option<Bytes>, j: Journal, exact: bool)
    requires Faithful(codec) && Applied(codec, config, j, exact) && Tree(codec, j.before).Some?
    ensures Undone(codec, config, j).Some? && Same(codec, Undone(codec, config, j).value, j.before, exact)
    ensures !exact ==> Applied(codec, Some(Content(Undone(codec, config, j).value)), j, exact)
  {
    hide Recovers;
    UndoneIsBefore(codec, config, j, exact);
    var doc :| j.after == codec.encode(doc);
    if !exact {
      OriginalIsRecoverable(codec, Some(Content(Undone(codec, config, j).value)), j.before, doc);
    }
  }

  /** A run in which no interrupted configure loses the original. */
  ghost predicate Legal(codec: Codec, s: Files, commands: seq<Command>, exact: bool)
    decreases |commands|
  {
    commands != [] ==>
      && !Loses(codec, s, commands[0])
      && (exact ==> !Interrupts(commands[0]))
      && Legal(codec, Step(codec, s, commands[0]), commands[1..], exact)
  }

  lemma {:induction false} RunKeepsInv(codec: Codec, s: Files, commands: seq<Command>, original: Option<Bytes>,
        exact: bool)
    requires Faithful(codec) && Inv(codec, s, original, exact) && Legal(codec, s, commands, exact)
    ensures Inv(codec, Run(codec, s, commands), original, exact)
    decreases |commands|
  {
    if commands != [] {
      StepKeepsInv(codec, s, commands[0], original, exact);
      RunKeepsInv(codec, Step(codec, s, commands[0]), commands[1..], original, exact);
    }
  }

  lemma {:induction false} UnreadableStays(codec: Codec, original: Option<Bytes>, commands: seq<Command>)
    requires Tree(codec, original).None?
    ensures var s := Files(original, None, None); Run(codec, s, commands) == s
    decreases |commands|
  {
    if commands != [] {
      UnreadableStays(codec, original, commands[1..]);
    }
  }

  /** From any configuration and after any legal run, unconfiguring until no journal remains gives the original
      bytes back (an absent file counts as empty); with interruptions, the original tree at least. */
  lemma UnconfigureRestoresOriginal(codec: Codec, original: Option<Bytes>, commands: seq<Command>, exact: bool)
    requires Faithful(codec) && Legal(codec, Files(original, None, None), commands, exact)
    ensures var last := Run(codec, Files(original, None, None), commands + [Unconfigure, Unconfigure]);
            last.managed.None? && last.temporary.None? && Same(codec, last.config, original, exact)
  {
    var s0 := Files(original, None, None);
    var s := Run(codec, s0, commands);
    RunConcat(codec, s0, commands, [Unconfigure, Unconfigure]);
    if Tree(codec, original).None? {
      UnreadableStays(codec, original, commands + [Unconfigure, Unconfigure]);
    } else {
      RunKeepsInv(codec, s0, commands, original, exact);
      OneJournalLess(codec, s, original, exact);
      var s1 := Step(codec, s, Unconfigure);
      OneJournalLess(codec, s1, original, exact);
      var s2 := Step(codec, s1, Unconfigure);
      assert [Unconfigure, Unconfigure][1..] == [Unconfigure];
      assert Run(codec, s1, [Unconfigure]) == s2;
    }
  }

  /** Each unconfigure takes exactly one journal off, the temporary one first. */
  lemma OneJournalLess(codec: Codec, s: Files, original: Option<Bytes>, exact: bool)
    requires Faithful(codec) && Inv(codec, s, original, exact)
    ensures var s1 := Step(codec, s, Unconfigure);
            && Inv(codec, s1, original, exact)
            && s1.temporary.None?
            && s1.managed == (if s.temporary.Some? then s.managed else None)
  {
    StepKeepsInv(codec, s, Unconfigure, original, exact);
    if s.temporary.Some? {
      var t := s.temporary.value;
      SameWithoutTemporary(codec, t.before, t.before, s.managed, original, exact);
      UndoneIsBefore(codec, s.config, t, exact);
    } else if s.managed.Some? {
      SameTree(codec, s.managed.value.before, original, exact);
      UndoneIsBefore(codec, s.config, s.managed.value, exact);
    }
  }

  lemma {:induction false} RunConcat(codec: Codec, s: Files, xs: seq<Command>, ys: seq<Command>)
    ensures Run(codec, s, xs + ys) == Run(codec, Run(codec, s, xs), ys)
    decreases |xs|
  {
    if xs == [] {
      assert xs + ys == ys;
    } else {
      assert (xs + ys)[1..] == xs[1..] + ys;
      RunConcat(codec, Step(codec, s, xs[0]), xs[1..], ys);
    }
  }

  // ---------- Configuring over an edited install ----------

  /** A second configure over an installed file, however the user edited it since, then unconfigure, leaves exactly what
      unconfiguring the edited file would have left; so by CodexUserEditsSurvive the edits survive both. */
  lemma ConfigureKeepsBaseline(codec: Codec, s: Files, doc: Doc)
    requires Faithful(codec) && s.managed.Some? && Intent(codec, s, doc, false).Some?
    ensures Step(codec, Step(codec, s, Configure(doc, false)), Unconfigure) == Step(codec, s, Unconfigure)
  {
    var j := Intent(codec, s, doc, false).value;
    assert codec.decode(j.after) == Some(doc);
  }

  /** A first configure of its kind, a temporary switch over an edited install included, leaves no trace once undone. */
  lemma FirstConfigureUndone(codec: Codec, s: Files, doc: Doc, temp: bool)
    requires Faithful(codec) && s.Slot(temp).None? && Intent(codec, s, doc, temp).Some?
    ensures Step(codec, Step(codec, s, Configure(doc, temp)), Unconfigure) == s.(config := Some(Content(s.config)))
  {
    var j := Intent(codec, s, doc, temp).value;
    assert codec.decode(j.after) == Some(doc);
  }

  // ---------- The interrupted repeated configure ----------

  /** Why Legal excludes exactly these: after a configure over an existing install stopped between its two writes,
      unconfiguring gives the original tree back if and only if the original is recoverable. */
  lemma InterruptedRepeatRecovers(codec: Codec, s: Files, doc: Doc, original: Option<Bytes>)
    requires Faithful(codec) && Inv(codec, s, original, false) && s.managed.Some? && s.temporary.None?
    ensures var c := InterruptedConfigure(doc, false);
            var last := Run(codec, s, [c, Unconfigure]);
            && last.managed.None? && last.temporary.None?
            && (Tree(codec, last.config) == Tree(codec, original) <==> !Loses(codec, s, c))
  {
    hide Recovers;
    var m := s.managed.value;
    var c := InterruptedConfigure(doc, false);
    SameTree(codec, m.before, original, false);
    UndoneIsBefore(codec, s.config, m, false);
    var baseline := Undone(codec, s.config, m).value;
    SameTree(codec, baseline, m.before, false);
    var j := Journal(baseline, codec.encode(doc));
    var s1 := Step(codec, s, c);
    assert s1 == s.(managed := Some(j));
    var updated := Undone(codec, s1.config, j);
    RestoreRecoversExactly(Tree(codec, s.config).value, Tree(codec, original).value, doc, "");
    if Content(s.config) == j.after {
      CodexUndoesInstall(Tree(codec, original).value, doc, "");
    }
    assert [c, Unconfigure][1..] == [Unconfigure];
    assert Run(codec, s1, [Unconfigure]) == Step(codec, s1, Unconfigure);
  }

  /** From the original: it survives the run exactly when, at every key the walk decides, the first install agrees with
      the original or with the second install, taking the authentication group of a provider as one key. */
  lemma RepeatedInterruptRecovers(codec: Codec, original: Option<Bytes>, d1: Doc, d2: Doc)
    requires Faithful(codec) && Tree(codec, original).Some?
    ensures var last := Run(codec, Files(original, None, None),
                            [Configure(d1, false), InterruptedConfigure(d2, false), Unconfigure]);
            && last.managed.None?
            && (Tree(codec, last.config) == Tree(codec, original)
                <==> Recovers(d1, Tree(codec, original).value, d2, ""))
  {
    hide Recovers;
    var s0 := Files(original, None, None);
    var s1 := Step(codec, s0, Configure(d1, false));
    StepKeepsInv(codec, s0, Configure(d1, false), original, false);
    InterruptedRepeatRecovers(codec, s1, d2, original);
    assert [Configure(d1, false), InterruptedConfigure(d2, false), Unconfigure][1..]
        == [InterruptedConfigure(d2, false), Unconfigure];
  }

  function OneKey(value: int): Doc {
    map["model" := Leaf(Number(value))]
  }

  /** Three different values of one key: the first install reads as a user edit and stays. */
  lemma RepeatedInterruptLoses(codec: Codec)
    requires Faithful(codec)
    ensures var original := Some(codec.encode(OneKey(0)));
            var last := Run(codec, Files(original, None, None),
                            [Configure(OneKey(1), false), InterruptedConfigure(OneKey(2), false), Unconfigure]);
            last.managed.None? && Tree(codec, last.config) != Some(OneKey(0))
  {
    RepeatedInterruptRecovers(codec, Some(codec.encode(OneKey(0))), OneKey(1), OneKey(2));
    assert forall v, w | v != w :: OneKey(v)["model"] != OneKey(w)["model"];
    assert !KeyRecovers(OneKey(1), OneKey(0), OneKey(2), "", "model");
    NotYetProvider();
  }
}
