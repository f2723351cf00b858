/**
 Boot recovery: the PID files a previous daemon left are reconciled into the
 slot before any request is served. The result of each supervisor probe is part
 of its candidate, so the theorems hold for every combination of results.
 */
module Recovery {
  import opened Wrappers
  import opened RuntimeSlot
  import opened SlotProtocol

  datatype Class = StalePIDFile | MismatchedExecutable | OccupiedPort | UnhealthySurvivor

  /** What the supervisor's Recover returns: adopted, nothing recorded, a classified error, or another error. */
  datatype Probe = Adopted | NoRecord | Classified(kind: Class) | Broken

  /** A profile with its launch spec; `key` is the PID file the spec names. */
  datatype Candidate = Candidate(
    profile: string, backend: Backend, address: string, key: string, process: Proc, probe: Probe)

  /** A probe result that ends its group at once. */
  predicate Decisive(c: Candidate) { c.probe.Adopted? || c.probe.Broken? }

  function FirstDecisive(cs: seq<Candidate>): (i: nat)
    ensures i <= |cs|
    ensures i < |cs| ==> Decisive(cs[i])
    ensures forall j :: 0 <= j < i ==> !Decisive(cs[j])
  {
    if cs == [] || Decisive(cs[0]) then 0 else 1 + FirstDecisive(cs[1..])
  }

  predicate NoneClassified(cs: seq<Candidate>, from: nat) { forall j :: from <= j < |cs| ==> !cs[j].probe.Classified? }

  /** The latest candidate with a classified error, which is the one remembered. */
  function LastClassified(cs: seq<Candidate>): (r: Option<Candidate>)
    ensures r.None? ==> forall c :: c in cs ==> !c.probe.Classified?
    ensures r.Some? ==> r.value in cs && r.value.probe.Classified?
  {
    if cs == [] then None
    else if cs[|cs| - 1].probe.Classified? then Some(cs[|cs| - 1])
    else LastClassified(cs[..|cs| - 1])
  }

  /** It is remembered over every one before it. */
  lemma {:induction false} TheLatestIsRemembered(cs: seq<Candidate>) returns (i: nat)
    requires LastClassified(cs).Some?
    ensures i < |cs| && cs[i] == LastClassified(cs).value && NoneClassified(cs, i + 1)
  {
    i := |cs| - 1;
    if !cs[i].probe.Classified? {
      i := TheLatestIsRemembered(cs[..|cs| - 1]);
      assert forall j :: i < j < |cs| - 1 ==> cs[j] == cs[..|cs| - 1][j];
    }
  }

  /** The profiles of a group that live in the adopted router process. */
  function SharedProfiles(adopted: Candidate, cs: seq<Candidate>): (r: seq<string>)
    ensures forall p :: p in r <==>
      exists c :: c in cs && c.profile == p && c.backend.name == adopted.backend.name && c.address == adopted.address
  {
    if cs == [] then []
    else
      var rest := SharedProfiles(adopted, cs[..|cs| - 1]);
      var c := cs[|cs| - 1];
      assert forall x :: x in cs <==> x == c || x in cs[..|cs| - 1];
      if c.backend.name == adopted.backend.name && c.address == adopted.address then rest + [c.profile] else rest
  }

  function SlotFor(c: Candidate, profiles: seq<string>, state: State): Slot {
    Slot(c.backend.name, Some(c.process), c.address, profiles, state, None)
  }

  /** What one PID file's candidates leave in the slot; Err is the error return. */
  function GroupResult(cs: seq<Candidate>): Result<Option<Slot>> {
    var d := FirstDecisive(cs);
    if d < |cs| then
      if cs[d].probe.Broken? then Err
      else Ok(Some(SlotFor(cs[d], if cs[d].backend.exclusive then [cs[d].profile] else SharedProfiles(cs[d], cs), Running)))
    else
      match LastClassified(cs)
      case Some(c) => if c.probe.kind == StalePIDFile then Ok(None) else Ok(Some(SlotFor(c, [c.profile], Orphaned)))
      case None => Ok(None)
  }

  // ------------------------------------------------------------------
  // The code
  // ------------------------------------------------------------------

  method BeginRecovery(m: Manager, c: Candidate) returns (op: Operation)
    modifies m
    ensures m.View() == Control(Some(SlotFor(c, [c.profile], Reconciling).(op := Some(op.id))), op.id)
    ensures op.id == old(m.ops) + 1
  {
    m.slot := Some(SlotFor(c, [c.profile], Stopped));
    op := m.ReserveLocked(c.profile, Reconciling);
  }

  method RestoreRouterProfiles(m: Manager, op: Operation, adopted: Candidate, cs: seq<Candidate>)
    modifies m
    ensures m.ops == old(m.ops)
    ensures m.slot == if adopted.backend.exclusive || !Owns(old(m.View()), op.id) then old(m.slot)
                      else Some(old(m.slot).value.(profiles := SharedProfiles(adopted, cs)))
  {
    if adopted.backend.exclusive {
      return;
    }
    var profiles := [];
    for i := 0 to |cs|
      invariant profiles == SharedProfiles(adopted, cs[..i])
    {
      assert cs[..i + 1][..i] == cs[..i];
      if cs[i].backend.name == adopted.backend.name && cs[i].address == adopted.address {
        profiles := profiles + [cs[i].profile];
      }
    }
    assert cs[..|cs|] == cs;
    if m.slot.Some? && m.slot.value.op == Some(op.id) {
      m.slot := Some(m.slot.value.(profiles := profiles));
    }
  }

  method FinishRecovery(m: Manager, op: Operation, state: State)
    modifies m
    ensures m.ops == old(m.ops)
    ensures m.slot == if !Owns(old(m.View()), op.id) then old(m.slot)
                      else if state == Stopped then None
                      else Some(old(m.slot).value.(state := state, op := None))
  {
    if m.slot.Some? && m.slot.value.op == Some(op.id) {
      if state == Stopped {
        m.slot := None;
      } else {
        m.slot := Some(m.slot.value.(state := state, op := None));
      }
    }
  }

  method RecoverGroup(m: Manager, cs: seq<Candidate>) returns (settled: bool, ok: bool)
    requires m.slot.None?
    modifies m
    ensures match GroupResult(cs)
            case Err => !ok && m.slot.None?
            case Ok(s) => ok && m.slot == s && (settled <==> s.Some?)
  {
    var failed: Option<(Candidate, Operation)> := None;
    for i := 0 to |cs|
      invariant m.slot.None?
      invariant forall j :: 0 <= j < i ==> !Decisive(cs[j])
      invariant LastClassified(cs[..i]) == if failed.None? then None else Some(failed.value.0)
    {
      assert cs[..i + 1][..i] == cs[..i];
      var op := BeginRecovery(m, cs[i]);
      match cs[i].probe
      case Adopted =>
        RestoreRouterProfiles(m, op, cs[i], cs);
        FinishRecovery(m, op, Running);
        return true, true;
      case NoRecord =>
        m.DropOperation(op);
      case Classified(_) =>
        m.DropOperation(op);
        failed := Some((cs[i], op));
      case Broken =>
        m.DropOperation(op);
        return false, false;
    }
    assert cs[..|cs|] == cs;
    if failed.None? {
      return false, true;
    }
    var (c, op) := failed.value;
    var state := if c.probe.kind == StalePIDFile then Stopped else Orphaned;
    m.slot := Some(SlotFor(c, [c.profile], state).(op := Some(op.id)));
    FinishRecovery(m, op, state);
    return state == Orphaned, true;
  }

  /** The first group that settles or breaks decides; the groups after it are never looked at. */
  function Outcome(groups: seq<seq<Candidate>>): Result<Option<Slot>> {
    if groups == [] then Ok(None)
    else
      var r := GroupResult(groups[0]);
      if r.Err? || r.value.Some? then r else Outcome(groups[1..])
  }

  /** The candidates of each PID file, in the order the files are first named. */
  function Groups(docs: seq<Candidate>): (r: seq<seq<Candidate>>)
    ensures |r| == |Keys(docs)|
    ensures forall i :: 0 <= i < |r| ==> r[i] == WithKey(docs, Keys(docs)[i])
  {
    seq(|Keys(docs)|, i requires 0 <= i < |Keys(docs)| => WithKey(docs, Keys(docs)[i]))
  }

  function Keys(docs: seq<Candidate>): seq<string> {
    if docs == [] then []
    else
      var rest, c := Keys(docs[..|docs| - 1]), docs[|docs| - 1];
      if c.key in rest then rest else rest + [c.key]
  }

  function WithKey(docs: seq<Candidate>, key: string): seq<Candidate> {
    if docs == [] then []
    else
      var rest, c := WithKey(docs[..|docs| - 1], key), docs[|docs| - 1];
      if c.key == key then rest + [c] else rest
  }

  lemma {:induction false} WithKeySelects(docs: seq<Candidate>, key: string)
    ensures forall c :: c in WithKey(docs, key) <==> c in docs && c.key == key
    ensures key in Keys(docs) <==> WithKey(docs, key) != []
  {
    if docs != [] {
      WithKeySelects(docs[..|docs| - 1], key);
      assert docs == docs[..|docs| - 1] + [docs[|docs| - 1]];
    }
  }

  /** Documents join the group of their PID file in the order they come. */
  lemma {:induction false} GroupsKeepTheOrder(docs: seq<Candidate>, more: seq<Candidate>, key: string)
    ensures WithKey(docs + more, key) == WithKey(docs, key) + WithKey(more, key)
    ensures Keys(docs) <= Keys(docs + more)
    ensures forall c :: WithKey([c], key) == if c.key == key then [c] else []
    decreases |more|
  {
    forall c ensures WithKey([c], key) == if c.key == key then [c] else [] {
      assert [c][..0] == [];
    }
    if more == [] {
      assert docs + more == docs;
    } else {
      assert (docs + more)[..|docs + more| - 1] == docs + more[..|more| - 1];
      GroupsKeepTheOrder(docs, more[..|more| - 1], key);
    }
  }

  /** The candidates collected from the first documents: their PID files in order, each with its group. */
  ghost predicate Collected(docs: seq<Candidate>, groups: map<string, seq<Candidate>>, order: seq<string>) {
    && order == Keys(docs) && groups.Keys == (set k | k in order)
    && forall k :: k in order ==> groups[k] == WithKey(docs, k)
  }

  lemma CollectOneMore(docs: seq<Candidate>, groups: map<string, seq<Candidate>>, order: seq<string>, c: Candidate)
    requires Collected(docs, groups, order)
    ensures if c.key in groups then Collected(docs + [c], groups[c.key := groups[c.key] + [c]], order)
            else Collected(docs + [c], groups[c.key := [c]], order + [c.key])
  {
    assert (docs + [c])[..|docs|] == docs;
    WithKeySelects(docs, c.key);
  }

  /** A document whose spec cannot be built is None, and ends the collection. */
  method CollectGroups(docs: seq<Option<Candidate>>)
    returns (ok: bool, groups: map<string, seq<Candidate>>, order: seq<string>)
    ensures ok <==> forall d :: d in docs ==> d.Some?
    ensures ok ==> Collected(Resolved(docs), groups, order)
  {
    groups, order := map[], [];
    for i := 0 to |docs|
      invariant forall d :: d in docs[..i] ==> d.Some?
      invariant Collected(Resolved(docs[..i]), groups, order)
    {
      if docs[i].None? {
        assert docs[i] in docs;
        return false, groups, order;
      }
      var c := docs[i].value;
      assert docs[..i + 1] == docs[..i] + [docs[i]];
      assert Resolved(docs[..i + 1]) == Resolved(docs[..i]) + [c];
      CollectOneMore(Resolved(docs[..i]), groups, order, c);
      if c.key !in groups {
        order := order + [c.key];
        groups := groups[c.key := [c]];
      } else {
        groups := groups[c.key := groups[c.key] + [c]];
      }
    }
    assert docs[..|docs|] == docs;
    ok := true;
  }

  method RecoverRuntimes(m: Manager, docs: seq<Option<Candidate>>) returns (ok: bool)
    requires m.slot.None?
    modifies m
    ensures (exists d :: d in docs && d.None?) ==> !ok && m.slot.None?
    ensures (forall d :: d in docs ==> d.Some?) ==>
              match Outcome(Groups(Resolved(docs)))
              case Err => !ok && m.slot.None?
              case Ok(s) => ok && m.slot == s
  {
    var resolved, groups, order := CollectGroups(docs);
    if !resolved {
      return false;
    }
    ghost var all := Groups(Resolved(docs));
    for i := 0 to |order|
      invariant m.slot.None?
      invariant Outcome(all) == Outcome(all[i..])
    {
      assert all[i] == groups[order[i]];
      assert all[i..][0] == all[i] && all[i..][1..] == all[i + 1..];
      var settled, groupOk := RecoverGroup(m, groups[order[i]]);
      if !groupOk || settled {
        return groupOk;
      }
    }
    return true;
  }

  function Resolved(docs: seq<Option<Candidate>>): (r: seq<Candidate>)
    requires forall d :: d in docs ==> d.Some?
    ensures |r| == |docs|
    ensures forall i :: 0 <= i < |docs| ==> r[i] == docs[i].value
  {
    seq(|docs|, i requires 0 <= i < |docs| => docs[i].value)
  }

  // ------------------------------------------------------------------
  // What a recovery leaves behind
  // ------------------------------------------------------------------

  ghost predicate DistinctProfiles(cs: seq<Candidate>) {
    forall i, j :: 0 <= i < j < |cs| ==> cs[i].profile != cs[j].profile
  }

  lemma {:induction false} FilteredProfilesAreDistinct(docs: seq<Candidate>, key: string)
    requires DistinctProfiles(docs)
    ensures DistinctProfiles(WithKey(docs, key))
  {
    if docs != [] {
      var init, last := docs[..|docs| - 1], docs[|docs| - 1];
      FilteredProfilesAreDistinct(init, key);
      WithKeySelects(init, key);
      assert forall c :: c in init ==> c.profile != last.profile;
    }
  }

  lemma {:induction false} SharedProfilesAreDistinct(adopted: Candidate, cs: seq<Candidate>)
    requires DistinctProfiles(cs)
    ensures NoDuplicates(SharedProfiles(adopted, cs))
  {
    if cs != [] {
      var init, last := cs[..|cs| - 1], cs[|cs| - 1];
      SharedProfilesAreDistinct(adopted, init);
      assert forall c :: c in init ==> c.profile != last.profile;
      assert last.profile !in SharedProfiles(adopted, init);
    }
  }

  ghost predicate FirstToSettle(groups: seq<seq<Candidate>>, i: int) {
    && 0 <= i < |groups|
    && GroupResult(groups[i]).Ok? && GroupResult(groups[i]).value.Some?
    && forall j :: 0 <= j < i ==> GroupResult(groups[j]) == Ok(None)
  }

  lemma {:induction false} OutcomeIsTheFirstSettled(groups: seq<seq<Candidate>>) returns (i: int)
    requires Outcome(groups).Ok? && Outcome(groups).value.Some?
    ensures FirstToSettle(groups, i) && GroupResult(groups[i]) == Outcome(groups)
  {
    if GroupResult(groups[0]).value.Some? {
      i := 0;
    } else {
      i := OutcomeIsTheFirstSettled(groups[1..]);
      i := i + 1;
    }
  }

  /** The slot as the adopted candidate `c` of group `cs` leaves it. */
  ghost predicate AdoptedFrom(s: Slot, c: Candidate, cs: seq<Candidate>) {
    && c in cs && c.probe == Adopted
    && s.backend == c.backend.name && s.process == Some(c.process) && s.address == c.address
    && c.profile in s.profiles
    && (c.backend.exclusive ==> s.profiles == [c.profile])
    && (!c.backend.exclusive ==> forall p :: p in s.profiles <==>
          exists d :: d in cs && d.profile == p && d.backend.name == c.backend.name && d.address == c.address)
  }

  /**
   A recovery that succeeds leaves the slot empty, or unowned and Running for a
   process adopted in the first group that settles, or unowned and Orphaned for
   a survivor of that group; a router holds exactly the group's profiles there.
   */
  lemma RecoverySettles(docs: seq<Candidate>) returns (i: int, c: Candidate)
    requires DistinctProfiles(docs)
    requires Outcome(Groups(docs)).Ok? && Outcome(Groups(docs)).value.Some?
    ensures FirstToSettle(Groups(docs), i) && c in Groups(docs)[i]
    ensures var s := Outcome(Groups(docs)).value.value;
            && s.op.None? && NoDuplicates(s.profiles)
            && s.process == Some(c.process)
            && (s.state == Running || s.state == Orphaned)
            && (s.state == Running ==> AdoptedFrom(s, c, Groups(docs)[i]))
            && (s.state == Orphaned ==>
                  && s == SlotFor(c, [c.profile], Orphaned)
                  && c.probe.Classified? && c.probe.kind != StalePIDFile
                  && forall d :: d in Groups(docs)[i] ==> !d.probe.Adopted?)
  {
    i := OutcomeIsTheFirstSettled(Groups(docs));
    var cs := Groups(docs)[i];
    WithKeySelects(docs, Keys(docs)[i]);
    FilteredProfilesAreDistinct(docs, Keys(docs)[i]);
    var d := FirstDecisive(cs);
    if d < |cs| {
      c := cs[d];
      SharedProfilesAreDistinct(c, cs);
    } else {
      c := LastClassified(cs).value;
    }
  }

  /** The supervisor's contract for the survivors: nothing recorded or a stale record means dead. */
  ghost predicate Honest(docs: seq<Candidate>, survivors: set<Proc>) {
    && (forall c :: c in docs && (c.probe.NoRecord? || c.probe == Classified(StalePIDFile)) ==> c.process !in survivors)
    && (forall c :: c in docs && c.probe.Adopted? ==> c.process in survivors)
    && (forall c, d :: c in docs && d in docs && c.key == d.key ==> c.process == d.process)
    && (forall p :: p in survivors ==> exists c :: c in docs && c.process == p)
  }

  lemma {:induction false} UnsettledGroupsAreDead(docs: seq<Candidate>, survivors: set<Proc>, i: int)
    requires Honest(docs, survivors)
    requires 0 <= i < |Groups(docs)| && GroupResult(Groups(docs)[i]) == Ok(None)
    ensures forall c :: c in Groups(docs)[i] ==> c.process !in survivors
  {
    var cs := Groups(docs)[i];
    WithKeySelects(docs, Keys(docs)[i]);
    forall c | c in cs ensures c.process !in survivors {
      var k :| 0 <= k < |cs| && cs[k] == c;
      assert !Decisive(cs[k]);
      if LastClassified(cs).Some? {
        assert LastClassified(cs).value.process == c.process;
      }
    }
  }

  lemma {:induction false} AllUnsettled(groups: seq<seq<Candidate>>)
    requires Outcome(groups) == Ok(None)
    ensures forall i :: 0 <= i < |groups| ==> GroupResult(groups[i]) == Ok(None)
  {
    if groups != [] {
      AllUnsettled(groups[1..]);
      assert forall i :: 0 < i < |groups| ==> groups[i] == groups[1..][i - 1];
    }
  }

  /** The world the server starts from: the recovered slot, nothing in flight, the survivors alive. */
  ghost function Recovered(slot: Option<Slot>, ops: nat, survivors: set<Proc>, bound: map<Proc, string>,
                           listens: map<string, string>, procs: nat): World {
    World(Control(slot, ops), map[], survivors, bound, listens, procs)
  }

  /** What the documents say agrees with what was running: each profile's backend and address, and where processes listen. */
  ghost predicate Matches(cfg: Config, docs: seq<Candidate>, survivors: set<Proc>, bound: map<Proc, string>,
                          listens: map<string, string>, procs: nat) {
    && (forall c :: c in docs ==> c.backend == cfg.BackendOf(c.backend.name) && c.profile in listens && listens[c.profile] == c.address)
    && (forall c :: c in docs && c.probe.Adopted? ==> c.process in bound && bound[c.process] == c.address)
    && (forall p :: p in survivors || p in bound ==> p < procs)
  }

  lemma InvOfRecoveredSlot(cfg: Config, s: Slot, ops: nat, survivors: set<Proc>, bound: map<Proc, string>,
                           listens: map<string, string>, procs: nat)
    requires var w := Recovered(Some(s), ops, survivors, bound, listens, procs);
             Shape(cfg, w, s) && (s.state == Running ==> BoundThere(w, s.process, s.address))
    requires s.op.None? && s.process.Some? && s.state in {Running, Orphaned}
    requires forall p :: p in survivors || p in bound ==> p < procs
    ensures Inv(cfg, Recovered(Some(s), ops, survivors, bound, listens, procs)) <==> survivors <= {s.process.value}
  {
  }

  /** The slot of a recovery is well formed and names a process of the group that settled. */
  lemma RecoveredShape(cfg: Config, docs: seq<Candidate>, s: Slot, ops: nat, survivors: set<Proc>, bound: map<Proc, string>,
                       listens: map<string, string>, procs: nat) returns (i: int, c: Candidate)
    requires DistinctProfiles(docs) && Matches(cfg, docs, survivors, bound, listens, procs) && Outcome(Groups(docs)) == Ok(Some(s))
    ensures FirstToSettle(Groups(docs), i) && c in Groups(docs)[i] && c in docs && s.process == Some(c.process)
    ensures s.op.None? && s.state in {Running, Orphaned}
    ensures var w := Recovered(Some(s), ops, survivors, bound, listens, procs);
            Shape(cfg, w, s) && (s.state == Running ==> BoundThere(w, s.process, s.address))
  {
    i, c := RecoverySettles(docs);
    WithKeySelects(docs, Keys(docs)[i]);
  }

  /** Every survivor belongs to a group before which no group leaves anything in the slot. */
  ghost predicate InReach(docs: seq<Candidate>, survivors: set<Proc>) {
    forall p :: p in survivors ==> exists k :: Reaches(docs, p, k)
  }

  ghost predicate Reaches(docs: seq<Candidate>, p: Proc, k: nat) {
    && k < |Groups(docs)|
    && (exists c :: c in Groups(docs)[k] && c.process == p)
    && forall j :: 0 <= j < k ==> GroupResult(Groups(docs)[j]) == Ok(None)
  }

  lemma GroupsShareAProcess(docs: seq<Candidate>, survivors: set<Proc>, i: int, c: Candidate, d: Candidate)
    requires Honest(docs, survivors) && 0 <= i < |Groups(docs)| && c in Groups(docs)[i] && d in Groups(docs)[i]
    ensures c.process == d.process
  {
    WithKeySelects(docs, Keys(docs)[i]);
  }

  /** A survivor in reach of a recovery that settled is the process the slot names. */
  lemma ReachedIsNamed(docs: seq<Candidate>, survivors: set<Proc>, i: int, c: Candidate, p: Proc, k: nat)
    requires Honest(docs, survivors) && FirstToSettle(Groups(docs), i) && c in Groups(docs)[i]
    requires p in survivors && Reaches(docs, p, k)
    ensures p == c.process
  {
    var d :| d in Groups(docs)[k] && d.process == p;
    if k < i {
      UnsettledGroupsAreDead(docs, survivors, k);
      assert false;
    }
    assert k == i;
    GroupsShareAProcess(docs, survivors, i, c, d);
  }

  /**
   Recovery hands the slot protocol a world it keeps safe if and only if every
   survivor belongs to a PID file before which no other leaves a slot behind: a
   survivor of a later one is never looked at.
   */
  lemma RecoveryEstablishesInv(cfg: Config, docs: seq<Candidate>, slot: Option<Slot>, ops: nat,
                               survivors: set<Proc>, bound: map<Proc, string>, listens: map<string, string>, procs: nat)
    requires DistinctProfiles(docs) && Matches(cfg, docs, survivors, bound, listens, procs) && Honest(docs, survivors)
    requires Outcome(Groups(docs)) == Ok(slot)
    ensures Inv(cfg, Recovered(slot, ops, survivors, bound, listens, procs)) <==> InReach(docs, survivors)
  {
    if slot.None? {
      EmptyRecoveryMeansDead(docs, survivors);
    } else {
      var i, c := RecoveredShape(cfg, docs, slot.value, ops, survivors, bound, listens, procs);
      InvOfRecoveredSlot(cfg, slot.value, ops, survivors, bound, listens, procs);
      forall p | p in survivors ensures p == c.process <==> exists k :: Reaches(docs, p, k) {
        if k :| Reaches(docs, p, k) {
          ReachedIsNamed(docs, survivors, i, c, p, k);
        }
        if p == c.process {
          assert Reaches(docs, p, i);
        }
      }
    }
  }

  /** From a recovery that reached every survivor, every run keeps at most one engine alive. */
  lemma EveryRunAfterRecoveryIsSafe(cfg: Config, docs: seq<Candidate>, slot: Option<Slot>, ops: nat, survivors: set<Proc>,
                                    bound: map<Proc, string>, listens: map<string, string>, procs: nat, steps: seq<Step>)
    requires DistinctProfiles(docs) && Matches(cfg, docs, survivors, bound, listens, procs) && Honest(docs, survivors)
    requires Outcome(Groups(docs)) == Ok(slot) && InReach(docs, survivors)
    ensures Safe(Run(cfg, Recovered(slot, ops, survivors, bound, listens, procs), steps))
  {
    RecoveryEstablishesInv(cfg, docs, slot, ops, survivors, bound, listens, procs);
    RunKeepsInv(cfg, Recovered(slot, ops, survivors, bound, listens, procs), steps);
    InvIsSafe(cfg, Run(cfg, Recovered(slot, ops, survivors, bound, listens, procs), steps));
  }

  lemma EmptyRecoveryMeansDead(docs: seq<Candidate>, survivors: set<Proc>)
    requires Honest(docs, survivors) && Outcome(Groups(docs)) == Ok(None)
    ensures survivors == {}
  {
    AllUnsettled(Groups(docs));
    if p :| p in survivors {
      var c :| c in docs && c.process == p;
      WithKeySelects(docs, c.key);
      var i :| 0 <= i < |Keys(docs)| && Keys(docs)[i] == c.key;
      assert c in Groups(docs)[i];
      UnsettledGroupsAreDead(docs, survivors, i);
      assert false;
    }
  }

  lemma TwoGroups(a: Candidate, b: Candidate)
    requires a.key != b.key
    ensures Groups([a, b]) == [[a], [b]]
  {
    var docs := [a, b];
    assert docs[..1] == [a] && [a][..0] == [];
    assert Keys([a]) == [a.key];
    assert WithKey([a], a.key) == [a];
    assert WithKey([a], b.key) == [];
    assert Keys(docs) == [a.key, b.key];
    assert WithKey(docs, a.key) == [a] && WithKey(docs, b.key) == [b];
  }

  /** Two PID files: the first names a recycled pid, the second the engine that is really alive. */
  lemma AnOrphanCanHideASurvivor(a: Candidate, b: Candidate)
    requires a.key != b.key && a.profile != b.profile && a.process != b.process
    requires a.probe == Classified(MismatchedExecutable) && b.probe == Adopted
    ensures Honest([a, b], {b.process}) && DistinctProfiles([a, b])
    ensures Outcome(Groups([a, b])) == Ok(Some(SlotFor(a, [a.profile], Orphaned)))
    ensures !InReach([a, b], {b.process})
  {
    TwoGroups(a, b);
    assert Groups([a, b])[0] == [a] && GroupResult([a]) != Ok(None) by {
      assert FirstDecisive([a]) == 1 && LastClassified([a]) == Some(a);
    }
    assert b in [a, b];
    assert FirstDecisive([a]) == 1;
    assert LastClassified([a]) == Some(a);
  }
}
