/**
  What the status of an Application counts (internal/controller/core/application/handler.go:45-52 and 120-140), on the
  executions of module Controllers: one entry per component, exact counts in the final write of a pass, and exactly
  when ReadyComponents cannot exceed TotalComponents.
 */
module Counting {
  import opened Wrappers
  import opened Conditions
  import opened Resources
  import opened Controllers
  import A = ApplicationReconcile

  ghost predicate UniqueEntries(entries: seq<Entry>) {
    forall i, j :: 0 <= i < j < |entries| ==> entries[i].name != entries[j].name
  }

  ghost function EntryNames(entries: seq<Entry>): set<string> { set i | 0 <= i < |entries| :: entries[i].name }
  ghost function Names(templates: seq<Template>): set<string> { set i | 0 <= i < |templates| :: templates[i].name }

  lemma {:induction false} NamesOfTail(entries: seq<Entry>)
    requires entries != []
    ensures EntryNames(entries) == {entries[0].name} + EntryNames(entries[1..])
  {
    forall n | n in EntryNames(entries) ensures n in {entries[0].name} + EntryNames(entries[1..]) {
      var k :| 0 <= k < |entries| && entries[k].name == n;
      if k > 0 { assert entries[1..][k - 1].name == n; }
    }
    forall n | n in EntryNames(entries[1..]) ensures n in EntryNames(entries) {
      var k :| 0 <= k < |entries[1..]| && entries[1..][k].name == n;
      assert entries[k + 1].name == n;
    }
  }

  /** The upsert adds at most the component's own name. */
  lemma {:induction false} UpsertNames(entries: seq<Entry>, e: Entry)
    ensures EntryNames(A.Upsert(entries, e)) == EntryNames(entries) + {e.name}
  {
    var u := A.Upsert(entries, e);
    NamesOfTail(u);
    if entries == [] {
    } else {
      NamesOfTail(entries);
      if entries[0].name != e.name {
        UpsertNames(entries[1..], e);
        assert u[1..] == A.Upsert(entries[1..], e);
      } else {
        assert u[1..] == entries[1..];
      }
    }
  }

  /** The upsert loop keeps one entry per component. */
  lemma {:induction false} UpsertKeepsUnique(entries: seq<Entry>, e: Entry)
    requires UniqueEntries(entries)
    ensures UniqueEntries(A.Upsert(entries, e))
  {
    if entries == [] {
    } else if entries[0].name == e.name {
      assert A.Upsert(entries, e) == [e] + entries[1..];
    } else {
      var rest := A.Upsert(entries[1..], e);
      UpsertKeepsUnique(entries[1..], e);
      UpsertNames(entries[1..], e);
      forall j | 0 <= j < |rest| ensures rest[j].name != entries[0].name {
        assert rest[j].name in EntryNames(rest);
      }
      assert A.Upsert(entries, e) == [entries[0]] + rest;
    }
  }

  /** The components whose entries say Running. */
  ghost function ReadyNames(entries: seq<Entry>): set<string> {
    set i | 0 <= i < |entries| && entries[i].reason.Running? :: entries[i].name
  }

  lemma {:induction false} ReadyNamesOfTail(entries: seq<Entry>)
    requires entries != []
    ensures ReadyNames(entries)
         == (if entries[0].reason.Running? then {entries[0].name} else {}) + ReadyNames(entries[1..])
  {
    forall n | n in ReadyNames(entries)
      ensures n in (if entries[0].reason.Running? then {entries[0].name} else {}) + ReadyNames(entries[1..])
    {
      var k :| 0 <= k < |entries| && entries[k].reason.Running? && entries[k].name == n;
      if k > 0 { assert entries[1..][k - 1].name == n; }
    }
    forall n | n in ReadyNames(entries[1..]) ensures n in ReadyNames(entries) {
      var k :| 0 <= k < |entries[1..]| && entries[1..][k].reason.Running? && entries[1..][k].name == n;
      assert entries[k + 1].name == n;
    }
  }

  lemma ReadyNamesOfLast(entries: seq<Entry>, e: Entry)
    ensures ReadyNames(entries + [e]) == ReadyNames(entries) + (if e.reason.Running? then {e.name} else {})
  {
    var all := entries + [e];
    forall n | n in ReadyNames(entries) ensures n in ReadyNames(all) {
      var k :| 0 <= k < |entries| && entries[k].reason.Running? && entries[k].name == n;
      assert all[k] == entries[k];
    }
    assert all[|entries|] == e;
  }

  /** With one entry per component, Running entries are counted by their names. */
  lemma {:induction false} CountIsByName(entries: seq<Entry>)
    requires UniqueEntries(entries)
    ensures A.CountRunning(entries) == |ReadyNames(entries)|
  {
    if entries == [] {
    } else {
      var init, e := entries[..|entries| - 1], entries[|entries| - 1];
      CountIsByName(init);
      assert entries == init + [e];
      ReadyNamesOfLast(init, e);
      assert e.name !in ReadyNames(init);
    }
  }

  /** The upsert makes the component ready or not, as its entry says, and leaves the others. */
  lemma {:induction false} UpsertReady(entries: seq<Entry>, e: Entry)
    requires UniqueEntries(entries)
    ensures ReadyNames(A.Upsert(entries, e))
         == (if e.reason.Running? then {e.name} else {}) + (ReadyNames(entries) - {e.name})
  {
    var u := A.Upsert(entries, e);
    ReadyNamesOfTail(u);
    if entries == [] {
    } else {
      ReadyNamesOfTail(entries);
      if entries[0].name != e.name {
        UpsertReady(entries[1..], e);
        assert u[1..] == A.Upsert(entries[1..], e);
      } else {
        assert u[1..] == entries[1..];
        assert forall i :: 0 < i < |entries| ==> entries[i].name != e.name;
      }
    }
  }

  lemma SubsetSize<T>(a: set<T>, b: set<T>)
    requires a <= b
    ensures |a| <= |b|
  {
    assert b == a + (b - a);
  }

  lemma {:induction false} UniqueEntriesSize(entries: seq<Entry>)
    requires UniqueEntries(entries)
    ensures |EntryNames(entries)| == |entries|
  {
    if entries == [] {
    } else {
      var k := |entries| - 1;
      UniqueEntriesSize(entries[..k]);
      assert EntryNames(entries) == EntryNames(entries[..k]) + {entries[k].name};
    }
  }

  lemma {:induction false} NamesSize(templates: seq<Template>)
    ensures |Names(templates)| <= |templates|
  {
    if templates == [] {
    } else {
      var k := |templates| - 1;
      NamesSize(templates[..k]);
      assert Names(templates) == Names(templates[..k]) + {templates[k].name};
    }
  }

  /** Pigeonhole: entries with distinct names, all of them template names, are no more than the templates. */
  lemma RunningFit(entries: seq<Entry>, templates: seq<Template>)
    requires UniqueEntries(entries) && EntryNames(entries) <= Names(templates)
    ensures A.CountRunning(entries) <= |templates|
  {
    UniqueEntriesSize(entries);
    SubsetSize(EntryNames(entries), Names(templates));
    NamesSize(templates);
  }

  // ---------------------------------------------------------------------------------------------------------------
  // Every execution
  // ---------------------------------------------------------------------------------------------------------------

  /** Every stored version of the Application, and the pass, have one entry per component. */
  ghost predicate UniqueInv(s: System) {
    && s.world.app != []
    && (forall k :: 0 <= k < |s.world.app| ==> UniqueEntries(s.world.app[k].status.components))
    && UniqueEntries(s.handler.status.components)
  }

  /** The name of the template at work, under a condition. */
  function NameIf(b: bool, h: A.Handler): set<string> {
    if b && h.i < |h.templates| then {h.templates[h.i].name} else {}
  }

  /** The call finishes a template whose component existed: its entry is recorded. */
  predicate Records(h: A.Handler, h': A.Handler) {
    !h.pc.Done? && h.i < |h.templates| && h'.i == h.i + 1 && !(h.pc.Updating? && h.pc.path.New?)
  }

  /** The component as the pass knows it when the answer has come. */
  function LastSeen(h: A.Handler, r: A.Response): Option<Component> {
    if r.Found? || r.Stored? then Some(r.component)
    else if h.pc.ReadingRun? then Some(h.pc.c)
    else None
  }

  /** The entries after a call: it changes them only by recording the component as last seen. */
  lemma AdvanceEntries(h: A.Handler, r: A.Response)
    requires A.WellFormed(h) && !h.pc.Done?
    ensures var h' := A.Advance(h, r);
            if Records(h, h') then
              && LastSeen(h, r).Some?
              && h'.status.components
                   == A.Upsert(h.status.components, A.EntryFor(h.templates[h.i].name, LastSeen(h, r).value))
            else h'.status.components == h.status.components
  {}

  lemma AdvanceNames(h: A.Handler, r: A.Response)
    requires A.WellFormed(h) && !h.pc.Done?
    ensures var h' := A.Advance(h, r);
            EntryNames(h'.status.components) == EntryNames(h.status.components) + NameIf(Records(h, h'), h)
  {
    AdvanceEntries(h, r);
    if Records(h, A.Advance(h, r)) {
      UpsertNames(h.status.components, A.EntryFor(h.templates[h.i].name, LastSeen(h, r).value));
    }
  }

  lemma AdvanceKeepsUnique(h: A.Handler, r: A.Response)
    requires A.WellFormed(h) && !h.pc.Done? && UniqueEntries(h.status.components)
    ensures UniqueEntries(A.Advance(h, r).status.components)
  {
    AdvanceEntries(h, r);
    if Records(h, A.Advance(h, r)) {
      UpsertKeepsUnique(h.status.components, A.EntryFor(h.templates[h.i].name, LastSeen(h, r).value));
    }
  }

  lemma AnswerKeepsUnique(s: System, r: A.Response, eff: Effect)
    requires UniqueInv(s) && Answerable(s, r, eff)
    ensures UniqueInv(Answered(s, r, eff))
  {
    AdvanceKeepsUnique(s.handler, r);
    if A.Requested(s.handler).ApplyApplicationStatus? {
      assert A.Requested(s.handler) == A.ApplyApplicationStatus(s.handler.status);
    }
  }

  lemma StepKeepsUnique(s: System, e: Event)
    requires UniqueInv(s) && Enabled(s, e)
    ensures UniqueInv(Apply(s, e))
  {
    if e.Answer? { AnswerKeepsUnique(s, e.response, e.effect); }
  }

  lemma {:induction false} AllUnique(states: seq<System>, events: seq<Event>, i: nat)
    requires Execution(states, events) && Initial(states[0]) && i < |states|
    ensures UniqueInv(states[i])
  {
    if i == 0 {
    } else {
      AllUnique(states, events, i - 1);
      StepKeepsUnique(states[i - 1], events[i - 1]);
    }
  }

  /** The final write of a pass carries the counts of the entries it carries. */
  predicate Tallied(h: A.Handler) {
    h.pc.Finishing? ==>
      h.status.readyComponents == A.CountRunning(h.status.components) && h.status.totalComponents == |h.current|
  }

  lemma AdvanceTallies(h: A.Handler, r: A.Response)
    requires A.WellFormed(h) && !h.pc.Done?
    ensures Tallied(A.Advance(h, r))
  {}

  lemma StepTallies(s: System, e: Event)
    requires Enabled(s, e) && Tallied(s.handler)
    ensures Tallied(Apply(s, e).handler)
  {
    if e.Answer? { AdvanceTallies(s.handler, e.response); }
  }

  lemma {:induction false} AllTallied(states: seq<System>, events: seq<Event>, i: nat)
    requires Execution(states, events) && Initial(states[0]) && i < |states|
    ensures Tallied(states[i].handler)
  {
    if i == 0 {
    } else {
      AllTallied(states, events, i - 1);
      StepTallies(states[i - 1], events[i - 1]);
    }
  }

  // ---------------------------------------------------------------------------------------------------------------
  // The final write of a pass
  // ---------------------------------------------------------------------------------------------------------------

  /** Other entries for the same components, whatever their readiness. */
  ghost predicate SameComponents(a: seq<Entry>, b: seq<Entry>) {
    UniqueEntries(a) && EntryNames(a) == EntryNames(b)
  }

  /** However many of the components with an entry are ready, they are no more than `total`. */
  ghost predicate Fits(entries: seq<Entry>, total: nat) {
    forall other :: SameComponents(other, entries) ==> A.CountRunning(other) <= total
  }

  /** The same entries, all of them Running. */
  function AllRunning(entries: seq<Entry>): (r: seq<Entry>)
    ensures |r| == |entries|
    ensures forall i :: 0 <= i < |r| ==> r[i].name == entries[i].name && r[i].reason.Running?
  {
    seq(|entries|, i requires 0 <= i < |entries| => entries[i].(reason := Running))
  }

  lemma {:induction false} AllRunningCounts(entries: seq<Entry>)
    requires forall i :: 0 <= i < |entries| ==> entries[i].reason.Running?
    ensures A.CountRunning(entries) == |entries|
  {
    if entries == [] {
    } else {
      AllRunningCounts(entries[..|entries| - 1]);
    }
  }

  lemma CountAtMost(entries: seq<Entry>)
    ensures A.CountRunning(entries) <= |entries|
  {}

  /** Exactly when the count fits: there are no more entries than that. */
  lemma FitsIff(entries: seq<Entry>, total: nat)
    requires UniqueEntries(entries)
    ensures Fits(entries, total) <==> |entries| <= total
  {
    UniqueEntriesSize(entries);
    if |entries| <= total {
      forall other | SameComponents(other, entries) ensures A.CountRunning(other) <= total {
        UniqueEntriesSize(other);
        CountAtMost(other);
      }
    } else {
      var other := AllRunning(entries);
      assert EntryNames(other) == EntryNames(entries);
      AllRunningCounts(other);
      assert SameComponents(other, entries) && A.CountRunning(other) > total;
    }
  }

  /** The pass begun at step `i` is at work until step `j`. */
  ghost predicate Working(events: seq<Event>, i: nat, j: nat) {
    i < j <= |events| && events[i].StartPass? && forall k :: i < k < j ==> !events[k].StartPass?
  }

  lemma WorkingButOne(events: seq<Event>, i: nat, j: nat)
    requires Working(events, i, j) && j > i + 1
    ensures Working(events, i, j - 1) && !events[j - 1].StartPass?
  {}

  /** The components whose entries the pass begun at step `i` has recorded before step `j`. */
  ghost function Recorded(states: seq<System>, events: seq<Event>, i: nat, j: nat): set<string>
    requires Execution(states, events) && i < j < |states|
  {
    if j == i + 1 then {}
    else
      var h, h' := states[j - 1].handler, states[j].handler;
      Recorded(states, events, i, j - 1) + NameIf(Records(h, h'), h)
  }

  /** The entries the pass carries are those for the components in `start` and in `recorded`. */
  ghost predicate EntriesInv(h: A.Handler, start: set<string>, recorded: set<string>) {
    EntryNames(h.status.components) == start + recorded
  }

  lemma StepEntries(s: System, e: Event, start: set<string>, recorded: set<string>)
    requires Enabled(s, e) && !e.StartPass? && EntriesInv(s.handler, start, recorded)
    ensures var h' := Apply(s, e).handler;
            EntriesInv(h', start, recorded + NameIf(Records(s.handler, h'), s.handler))
  {
    if e.Answer? { AdvanceNames(s.handler, e.response); }
  }

  /** The entries a pass carries are those it started with and those it recorded. */
  lemma {:induction false} PassEntries(states: seq<System>, events: seq<Event>, i: nat, j: nat, start: set<string>)
    requires Execution(states, events) && Working(events, i, j)
    requires EntriesInv(states[i + 1].handler, start, {})
    ensures EntriesInv(states[j].handler, start, Recorded(states, events, i, j))
  {
    if j == i + 1 {
    } else {
      WorkingButOne(events, i, j);
      PassEntries(states, events, i, j - 1, start);
      StepEntries(states[j - 1], events[j - 1], start, Recorded(states, events, i, j - 1));
    }
  }

  predicate IsReady(c: Component) {
    Find(c.conditions, Ready).Some? && Find(c.conditions, Ready).value.reason.Running?
  }

  /** The component a call finishes with, if any, and whether it was ready when last seen. */
  function NewReadiness(h: A.Handler, e: Event, h': A.Handler): map<string, bool> {
    if Records(h, h') && e.Answer? && LastSeen(h, e.response).Some?
    then map[h.templates[h.i].name := IsReady(LastSeen(h, e.response).value)]
    else map[]
  }

  /** Whether the components that the pass begun at step `i` has finished with before step `j` were ready. */
  ghost function Readiness(states: seq<System>, events: seq<Event>, i: nat, j: nat): map<string, bool>
    requires Execution(states, events) && i < j < |states|
  {
    if j == i + 1 then map[]
    else Readiness(states, events, i, j - 1) + NewReadiness(states[j - 1].handler, events[j - 1], states[j].handler)
  }

  /** The components that are ready, by what was known before and by what has been seen since. */
  ghost function Overwritten(before: set<string>, readiness: map<string, bool>): set<string> {
    (set n | n in readiness && readiness[n]) + (before - readiness.Keys)
  }

  lemma OverwrittenOnce(before: set<string>, readiness: map<string, bool>, name: string, ready: bool)
    ensures Overwritten(before, readiness + map[name := ready])
         == (if ready then {name} else {}) + (Overwritten(before, readiness) - {name})
  {}

  lemma StepReadiness(s: System, e: Event, before: set<string>, readiness: map<string, bool>)
    requires Enabled(s, e) && !e.StartPass? && UniqueEntries(s.handler.status.components)
    requires ReadyNames(s.handler.status.components) == Overwritten(before, readiness)
    ensures var h, h' := s.handler, Apply(s, e).handler;
            && ReadyNames(h'.status.components) == Overwritten(before, readiness + NewReadiness(h, e, h'))
            && NewReadiness(h, e, h').Keys == NameIf(Records(h, h'), h)
  {
    var h, h' := s.handler, Apply(s, e).handler;
    if e.Answer? {
      AdvanceEntries(h, e.response);
      if Records(h, h') {
        var entry := A.EntryFor(h.templates[h.i].name, LastSeen(h, e.response).value);
        UpsertReady(h.status.components, entry);
        OverwrittenOnce(before, readiness, entry.name, entry.reason.Running?);
      }
    }
    assert NewReadiness(h, e, h') == map[] ==> readiness + NewReadiness(h, e, h') == readiness;
  }

  /** The Running entries a pass carries: those it started with, overwritten by what it has seen since. */
  lemma {:induction false} PassReadiness(states: seq<System>, events: seq<Event>, i: nat, j: nat)
    requires Execution(states, events) && Initial(states[0]) && Working(events, i, j)
    ensures ReadyNames(states[j].handler.status.components)
         == Overwritten(ReadyNames(states[i + 1].handler.status.components), Readiness(states, events, i, j))
    ensures Readiness(states, events, i, j).Keys == Recorded(states, events, i, j)
  {
    if j == i + 1 {
    } else {
      WorkingButOne(events, i, j);
      PassReadiness(states, events, i, j - 1);
      AllUnique(states, events, j - 1);
      StepReadiness(states[j - 1], events[j - 1], ReadyNames(states[i + 1].handler.status.components),
                    Readiness(states, events, i, j - 1));
    }
  }

  /** The pass works on a component that it found. */
  predicate InProgress(h: A.Handler) {
    match h.pc
    case MarkingChanged(_) => true
    case Triggering(path, _) => path.Existing?
    case FetchingWorkflow(path, _) => path.Existing?
    case StartingRun(path, _) => path.Existing?
    case TriggerFailed(path, _) => path.Existing?
    case Updating(path, _, _) => path.Existing?
    case ReadingRun(_) => true
    case Mirroring(_, _) => true
    case _ => false
  }

  /** The pass has not been given up. */
  predicate GoesOn(h: A.Handler) { !h.pc.Done? && !h.pc.MarkingFailed? }

  /** What a pass has found it records, or is still working on. */
  lemma AdvanceFinds(h: A.Handler, r: A.Response)
    requires A.WellFormed(h) && GoesOn(h) && GoesOn(A.Advance(h, r))
    ensures var h' := A.Advance(h, r);
            NameIf(InProgress(h) || (h.pc.Looking? && r.Found?), h)
            == NameIf(Records(h, h'), h) + NameIf(InProgress(h'), h')
  {}

  /** The names for which the lookups of the pass begun at step `i` were answered with a component before step `j`. */
  ghost function Found(states: seq<System>, events: seq<Event>, i: nat, j: nat): set<string>
    requires Execution(states, events) && i < j < |states|
  {
    if j == i + 1 then {}
    else
      var h, e := states[j - 1].handler, events[j - 1];
      Found(states, events, i, j - 1) + NameIf(h.pc.Looking? && e.Answer? && e.response.Found?, h)
  }

  /** As long as a pass goes on, the components it found are those it recorded and the one it works on. */
  predicate FoundInv(h: A.Handler, found: set<string>, recorded: set<string>) {
    GoesOn(h) ==> found == recorded + NameIf(InProgress(h), h)
  }

  lemma StepFinds(s: System, e: Event, found: set<string>, recorded: set<string>)
    requires Enabled(s, e) && !e.StartPass? && FoundInv(s.handler, found, recorded)
    ensures var h, h' := s.handler, Apply(s, e).handler;
            FoundInv(h', found + NameIf(h.pc.Looking? && e.Answer? && e.response.Found?, h),
                     recorded + NameIf(Records(h, h'), h))
  {
    if e.Answer? && GoesOn(s.handler) && GoesOn(Apply(s, e).handler) { AdvanceFinds(s.handler, e.response); }
  }

  lemma {:induction false} FoundIsRecorded(states: seq<System>, events: seq<Event>, i: nat, j: nat)
    requires Execution(states, events) && Working(events, i, j)
    ensures FoundInv(states[j].handler, Found(states, events, i, j), Recorded(states, events, i, j))
  {
    if j == i + 1 {
    } else {
      WorkingButOne(events, i, j);
      var found, recorded := Found(states, events, i, j - 1), Recorded(states, events, i, j - 1);
      assert FoundInv(states[j - 1].handler, found, recorded) by { FoundIsRecorded(states, events, i, j - 1); }
      StepFinds(states[j - 1], events[j - 1], found, recorded);
    }
  }

  /** The entries a pass carries into its final write. */
  lemma FinalEntries(states: seq<System>, events: seq<Event>, i: nat, m: nat)
    requires Execution(states, events) && Initial(states[0]) && Working(events, i, m)
    requires states[m].handler.pc.Finishing?
    ensures UniqueEntries(states[m].handler.status.components)
    ensures EntryNames(states[m].handler.status.components)
         == EntryNames(states[i + 1].handler.status.components) + Found(states, events, i, m)
  {
    AllUnique(states, events, m);
    PassEntries(states, events, i, m, EntryNames(states[i + 1].handler.status.components));
    FoundIsRecorded(states, events, i, m);
  }

  /** A status write of the pass stores the status the pass carries. */
  lemma WriteStores(s: System, e: Event)
    requires Enabled(s, e) && !s.handler.pc.Done? && A.WellFormed(s.handler)
    requires A.Requested(s.handler).ApplyApplicationStatus? && e.Answer? && e.effect.Wrote?
    ensures Apply(s, e).world.app != [] && Latest(Apply(s, e).world).status == s.handler.status
  {
    assert A.Requested(s.handler) == A.ApplyApplicationStatus(s.handler.status);
  }

  /**
    The final write of a pass, in every execution: one entry per component, for the components the pass found in the
    status and those it found in the store; ReadyComponents is the number of Running entries, which are those read,
    overwritten by what the pass has seen; and the count fits, whatever the components' readiness, iff these components
    are no more than TotalComponents.
   */
  lemma FinalCount(states: seq<System>, events: seq<Event>, i: nat, m: nat)
    requires Execution(states, events) && Initial(states[0]) && Working(events, i, m) && m < |events|
    requires states[m].handler.pc.Finishing? && events[m].Answer? && events[m].effect.Wrote?
    ensures var stored := Latest(states[m + 1].world).status;
            var names := EntryNames(states[i + 1].handler.status.components) + Found(states, events, i, m);
            && UniqueEntries(stored.components) && EntryNames(stored.components) == names
            && stored.readyComponents == A.CountRunning(stored.components) == |ReadyNames(stored.components)|
            && ReadyNames(stored.components)
                 == Overwritten(ReadyNames(states[i + 1].handler.status.components), Readiness(states, events, i, m))
            && stored.totalComponents == |states[m].handler.current|
            && (Fits(stored.components, stored.totalComponents) <==> |names| <= stored.totalComponents)
  {
    FinalEntries(states, events, i, m);
    PassReadiness(states, events, i, m);
    CountIsByName(states[m].handler.status.components);
    assert Tallied(states[m].handler) by { AllTallied(states, events, m); }
    WriteStores(states[m], events[m]);
    FitsIff(states[m].handler.status.components, states[m].handler.status.totalComponents);
    UniqueEntriesSize(states[m].handler.status.components);
  }

  // ---------------------------------------------------------------------------------------------------------------
  // The writes during a pass
  // ---------------------------------------------------------------------------------------------------------------

  /** Until its final write a pass carries the counts it started with. */
  predicate Carries(h: A.Handler, ready: nat, total: nat) {
    !h.pc.Done? && !h.pc.Finishing? ==> h.status.readyComponents == ready && h.status.totalComponents == total
  }

  lemma AdvanceCarries(h: A.Handler, r: A.Response, ready: nat, total: nat)
    requires A.WellFormed(h) && !h.pc.Done? && Carries(h, ready, total)
    ensures Carries(A.Advance(h, r), ready, total)
  {}

  lemma StepCarries(s: System, e: Event, ready: nat, total: nat)
    requires Enabled(s, e) && !e.StartPass? && Carries(s.handler, ready, total)
    ensures Carries(Apply(s, e).handler, ready, total)
  {
    if e.Answer? { AdvanceCarries(s.handler, e.response, ready, total); }
  }

  lemma StartCarries(s: System, e: Event)
    requires Enabled(s, e) && e.StartPass?
    ensures var read := s.world.app[e.version].status;
            && Carries(Apply(s, e).handler, read.readyComponents, read.totalComponents)
            && Apply(s, e).handler.status.components == read.components
  {}

  lemma {:induction false} PassCarries(states: seq<System>, events: seq<Event>, i: nat, j: nat, ready: nat, total: nat)
    requires Execution(states, events) && Working(events, i, j) && Carries(states[i + 1].handler, ready, total)
    ensures Carries(states[j].handler, ready, total)
  {
    if j == i + 1 {
    } else {
      WorkingButOne(events, i, j);
      PassCarries(states, events, i, j - 1, ready, total);
      StepCarries(states[j - 1], events[j - 1], ready, total);
    }
  }

  lemma EntriesUnique(states: seq<System>, events: seq<Event>, i: nat, m: nat)
    requires Execution(states, events) && Initial(states[0]) && Working(events, i, m)
    ensures UniqueEntries(states[m].handler.status.components)
    ensures UniqueEntries(states[i].world.app[events[i].version].status.components)
  {
    AllUnique(states, events, i);
    AllUnique(states, events, m);
  }

  /** How many more are ready: those that have become ready, less those that have ceased to be. */
  lemma OverwrittenSize(before: set<string>, readiness: map<string, bool>)
    ensures var became := set n | n in readiness && readiness[n] && n !in before;
            var ceased := set n | n in before && n in readiness && !readiness[n];
            |Overwritten(before, readiness)| == |before| + |became| - |ceased|
  {
    var became := set n | n in readiness && readiness[n] && n !in before;
    var ceased := set n | n in before && n in readiness && !readiness[n];
    assert Overwritten(before, readiness) == (before - ceased) + became;
    assert before == (before - ceased) + ceased;
  }

  /**
    The other writes of a pass, in every execution, store the counts as they were read with the entries as they are by
    now: those read, overwritten by the readiness of the components the pass has finished with. So ReadyComponents is
    right iff as many components are ready now as were counted before; if it was right when it was read, iff as many
    components have become ready as have ceased to be.
   */
  lemma MidPassCount(states: seq<System>, events: seq<Event>, i: nat, m: nat)
    requires Execution(states, events) && Initial(states[0]) && Working(events, i, m) && m < |events|
    requires !states[m].handler.pc.Done? && !states[m].handler.pc.Finishing? && A.WellFormed(states[m].handler)
    requires A.Requested(states[m].handler).ApplyApplicationStatus? && events[m].Answer? && events[m].effect.Wrote?
    ensures states[m + 1].world.app != [] && events[i].version < |states[i].world.app|
    ensures var stored := Latest(states[m + 1].world).status;
            var read := states[i].world.app[events[i].version].status;
            var before, readiness := ReadyNames(read.components), Readiness(states, events, i, m);
            var became := set n | n in readiness && readiness[n] && n !in before;
            var ceased := set n | n in before && n in readiness && !readiness[n];
            && stored.readyComponents == read.readyComponents && stored.totalComponents == read.totalComponents
            && ReadyNames(stored.components) == Overwritten(before, readiness)
            && (stored.readyComponents == A.CountRunning(stored.components) <==>
                  |Overwritten(before, readiness)| == read.readyComponents)
            && (read.readyComponents == A.CountRunning(read.components) ==>
                  (stored.readyComponents == A.CountRunning(stored.components) <==> |became| == |ceased|))
  {
    var read := states[i].world.app[events[i].version].status;
    StartCarries(states[i], events[i]);
    PassCarries(states, events, i, m, read.readyComponents, read.totalComponents);
    WriteStores(states[m], events[m]);
    PassReadiness(states, events, i, m);
    EntriesUnique(states, events, i, m);
    CountIsByName(read.components);
    CountIsByName(states[m].handler.status.components);
    OverwrittenSize(ReadyNames(read.components), Readiness(states, events, i, m));
  }

  // ---------------------------------------------------------------------------------------------------------------
  // Applications whose templates are never removed
  // ---------------------------------------------------------------------------------------------------------------

  ghost predicate GoodStatus(status: ApplicationStatus, names: set<string>) {
    && UniqueEntries(status.components)
    && EntryNames(status.components) <= names
    && status.readyComponents <= status.totalComponents
  }

  /** The pass carries a good status, and its copy of the Application has no fewer templates than it ranges over. */
  ghost predicate GoodPass(h: A.Handler) {
    GoodStatus(h.status, Names(h.templates)) && Names(h.templates) <= Names(h.current)
  }

  ghost predicate CountInv(s: System) {
    && s.world.app != []
    && (forall k :: 0 <= k < |s.world.app| ==>
          && GoodStatus(s.world.app[k].status, Names(s.world.app[k].templates))
          && Names(s.world.app[k].templates) <= Names(Latest(s.world).templates))
    && GoodPass(s.handler)
    && Names(s.handler.current) <= Names(Latest(s.world).templates)
  }

  /** Templates are never removed from the Application. */
  ghost predicate NothingRemoved(s: System, e: Event)
    requires s.world.app != []
  {
    e.Edit? ==> Names(Latest(s.world).templates) <= Names(e.templates)
  }

  lemma NextCounts(h: A.Handler)
    requires GoodPass(h)
    ensures GoodPass(A.NextTemplate(h))
  {
    RunningFit(h.status.components, h.current);
  }

  lemma RecordedCounts(h: A.Handler, c: Component)
    requires h.i < |h.templates| && GoodPass(h)
    ensures GoodPass(A.Recorded(h, c))
  {
    var e := A.EntryFor(h.templates[h.i].name, c);
    UpsertKeepsUnique(h.status.components, e);
    UpsertNames(h.status.components, e);
    assert h.templates[h.i].name in Names(h.templates);
    NextCounts(h.(status := h.status.(components := A.Upsert(h.status.components, e)), i := h.i + 1));
  }

  /** Where a pass goes on once a component is up to date, or mirrored. */
  lemma GoingOnCounts(h: A.Handler, c: Component, writes: seq<ComponentCondition>)
    requires h.i < |h.templates| && GoodPass(h)
    ensures GoodPass(A.AfterUpdate(h, c)) && GoodPass(A.AfterMirror(h, c, writes))
  {
    RecordedCounts(h, c);
  }

  lemma UpdatingCounts(h: A.Handler, r: A.Response)
    requires A.WellFormed(h) && h.pc.Updating? && GoodPass(h)
    ensures GoodPass(A.Advance(h, r))
  {
    if !r.Stored? {
    } else if h.pc.path.New? {
      NextCounts(h.(i := h.i + 1));
    } else {
      GoingOnCounts(h, r.component, []);
    }
  }

  lemma MirroringCounts(h: A.Handler, r: A.Response)
    requires A.WellFormed(h) && (h.pc.ReadingRun? || h.pc.Mirroring?) && GoodPass(h)
    ensures GoodPass(A.Advance(h, r))
  {
    if h.pc.Mirroring? {
      if r.Stored? { GoingOnCounts(h, r.component, h.pc.writes[1..]); }
    } else {
      RecordedCounts(h, h.pc.c);
    }
  }

  lemma AdvanceCounts(h: A.Handler, r: A.Response)
    requires A.WellFormed(h) && !h.pc.Done? && GoodPass(h)
    requires (h.pc.MarkingNew? || h.pc.MarkingChanged?) && r.Refreshed? ==> Names(h.current) <= Names(r.templates)
    ensures GoodPass(A.Advance(h, r))
  {
    if h.pc.Updating? {
      UpdatingCounts(h, r);
    } else if h.pc.ReadingRun? || h.pc.Mirroring? {
      MirroringCounts(h, r);
    } else if h.pc.Looking? && r.Found? {
      GoingOnCounts(h, r.component, []);
    }
  }

  lemma StoredCounts(s: System, app: AppObject)
    requires CountInv(s) && GoodStatus(app.status, Names(Latest(s.world).templates))
    requires Names(Latest(s.world).templates) <= Names(app.templates)
    ensures CountInv(s.(world := s.world.(app := s.world.app + [app])))
  {}

  /** Only a status write of the Application answers with its templates, and then with the latest ones. */
  lemma RefreshedIsLatest(s: System, r: A.Response, eff: Effect)
    requires Answerable(s, r, eff)
    requires s.handler.pc.MarkingNew? || s.handler.pc.MarkingChanged?
    ensures r.Refreshed? ==> r.templates == Latest(s.world).templates
  {}

  lemma HandlerCounts(s: System, r: A.Response, eff: Effect)
    requires CountInv(s) && Answerable(s, r, eff)
    ensures GoodPass(A.Advance(s.handler, r))
    ensures Names(A.Advance(s.handler, r).current) <= Names(Latest(s.world).templates)
  {
    if s.handler.pc.MarkingNew? || s.handler.pc.MarkingChanged? { RefreshedIsLatest(s, r, eff); }
    AdvanceCounts(s.handler, r);
  }

  lemma AnswerCounts(s: System, r: A.Response, eff: Effect)
    requires CountInv(s) && Answerable(s, r, eff)
    ensures CountInv(Answered(s, r, eff))
  {
    var w' := Answered(s, r, eff).world;
    HandlerCounts(s, r, eff);
    if A.Requested(s.handler).ApplyApplicationStatus? && eff.Wrote? {
      assert A.Requested(s.handler) == A.ApplyApplicationStatus(s.handler.status);
      StoredCounts(s, Latest(s.world).(status := s.handler.status));
    }
  }

  lemma StepCounts(s: System, e: Event)
    requires CountInv(s) && Enabled(s, e) && NothingRemoved(s, e)
    ensures CountInv(Apply(s, e))
  {
    match e {
      case StartPass(k) =>
        var app := s.world.app[k];
        NextCounts(A.Handler(app.templates, app.templates, app.status, 0, A.Looking));
      case Answer(r, eff) => AnswerCounts(s, r, eff);
      case Edit(templates) => StoredCounts(s, Latest(s.world).(templates := templates));
      case _ =>
    }
  }

  lemma {:induction false} AllCounted(states: seq<System>, events: seq<Event>, i: nat)
    requires Execution(states, events) && Initial(states[0]) && i < |states|
    requires forall k :: 0 <= k < i ==> NothingRemoved(states[k], events[k])
    ensures CountInv(states[i])
  {
    if i == 0 {
    } else {
      AllCounted(states, events, i - 1);
      StepCounts(states[i - 1], events[i - 1]);
    }
  }

  /**
    Counting: while templates are never removed, every stored version of the Application status has at most one entry
    per component, only entries of its own templates, and ReadyComponents <= TotalComponents.
   */
  lemma NeverRemoved(states: seq<System>, events: seq<Event>, i: nat)
    requires Execution(states, events) && Initial(states[0]) && i < |states|
    requires forall k :: 0 <= k < i ==> NothingRemoved(states[k], events[k])
    ensures forall k :: 0 <= k < |states[i].world.app| ==>
              GoodStatus(states[i].world.app[k].status, Names(states[i].world.app[k].templates))
  {
    AllCounted(states, events, i);
  }
}
