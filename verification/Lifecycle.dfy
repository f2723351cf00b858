/**
 Sequential use of the slot: restart as stop-then-start, and the autostart
 validator against the machine it guards.
 */
module Lifecycle {
  import opened Wrappers
  import opened RuntimeSlot

  /** What a profile resolves to: its backend and the address it listens on. */
  datatype Info = Info(backend: Backend, address: string)

  /** A start whose process calls succeed, run with nothing else in between; None is a conflict. */
  function StartCall(ctl: Control, info: Info, profile: string, replace: bool, engine: Proc): Option<Control> {
    match ReserveStart(ctl, info.backend, profile, info.address, replace)
    case StartRefused => None
    case StartReserved(next, plan) =>
      Some(CommitStart(next, plan.op.id, if plan.spawn then Some(engine) else None))
  }

  function StopCall(ctl: Control, info: Info, profile: string): Option<Control> {
    match ReserveStop(ctl, info.backend.name, profile)
    case StopRefused => None
    case StopNothing => Some(ctl)
    case StopReserved(next, op, _) => Some(CommitStop(next, op))
  }

  function RestartCall(ctl: Control, info: Info, profile: string, engine: Proc): Option<Control> {
    match StopCall(ctl, info, profile)
    case None => None
    case Some(stopped) => StartCall(stopped, info, profile, false, engine)
  }

  /** A slot at rest and serving, as the protocol's invariant describes it. */
  ghost predicate Serving(ctl: Control, backend: Backend) {
    && ctl.slot.Some?
    && var s := ctl.slot.value;
       && s.state == Running && s.op.None? && s.process.Some?
       && s.backend == backend.name
       && s.profiles != [] && NoDuplicates(s.profiles)
       && (backend.exclusive ==> |s.profiles| == 1)
  }

  function Held(ctl: Control): set<string> {
    if ctl.slot.None? then {} else set p | p in ctl.slot.value.profiles
  }

  /**
   Restarting a held profile conflicts exactly when the router also holds other
   profiles and listens somewhere else than the profile now says. Otherwise the
   slot serves the same profiles again.
   */
  lemma RestartNeedsNoReplace(ctl: Control, info: Info, profile: string, engine: Proc)
    requires Serving(ctl, info.backend) && profile in Held(ctl)
    ensures var r := RestartCall(ctl, info, profile, engine);
            && (r.Some? <==> |ctl.slot.value.profiles| == 1 || ctl.slot.value.address == info.address)
            && (r.Some? ==>
                  && Serving(r.value, info.backend)
                  && Held(r.value) == Held(ctl)
                  && r.value.slot.value.address == info.address)
  {
    var s := ctl.slot.value;
    WithoutHeld(s.profiles, profile);
    var stopped := StopCall(ctl, info, profile).value;
    if |s.profiles| == 1 {
      assert s.profiles == [profile];
      assert stopped.slot.None?;
    } else {
      assert stopped.slot.value.profiles == Without(s.profiles, profile);
    }
  }

  /** A restart of a profile that is not held only starts it; of one whose slot is not running it conflicts, as its stop does. */
  lemma RestartElsewhere(ctl: Control, info: Info, profile: string, engine: Proc)
    ensures var held := profile in Held(ctl) && ctl.slot.value.backend == info.backend.name;
            && (!held ==> RestartCall(ctl, info, profile, engine) == StartCall(ctl, info, profile, false, engine))
            && (held && ctl.slot.value.state != Running ==> RestartCall(ctl, info, profile, engine) == None)
  {
  }

  /** A router that holds two profiles, one of which was moved to another address since. */
  lemma ARestartCanConflict(backend: Backend, moved: string, other: string, before: string, after: string, engine: Proc)
    requires !backend.exclusive && moved != other && before != after
    ensures var ctl := Control(Some(Slot(backend.name, Some(engine), before, [moved, other], Running, None)), 0);
            && Serving(ctl, backend) && moved in Held(ctl)
            && RestartCall(ctl, Info(backend, after), moved, engine + 1).None?
  {
    var ctl := Control(Some(Slot(backend.name, Some(engine), before, [moved, other], Running, None)), 0);
    RestartNeedsNoReplace(ctl, Info(backend, after), moved, engine + 1);
  }

  // ------------------------------------------------------------------
  // Autostart
  // ------------------------------------------------------------------

  type Lookup = string -> Option<Info>

  /** Backends are registered under a non-empty name, and a name decides exclusivity. */
  ghost predicate Registered(names: seq<string>, lookup: Lookup) {
    && (forall n :: n in names && lookup(n).Some? ==> lookup(n).value.backend.name != "")
    && (forall m, n ::
          m in names && n in names && lookup(m).Some? && lookup(n).Some?
          && lookup(m).value.backend.name == lookup(n).value.backend.name
          ==> lookup(m).value.backend == lookup(n).value.backend)
  }

  /** Starts `names` one by one without replace; None when one does not resolve or conflicts. */
  function StartAll(ctl: Control, names: seq<string>, lookup: Lookup, engine: Proc): Option<Control>
    decreases |names|
  {
    if names == [] then Some(ctl)
    else if lookup(names[0]).None? then None
    else
      match StartCall(ctl, lookup(names[0]).value, names[0], false, engine)
      case None => None
      case Some(next) => StartAll(next, names[1..], lookup, engine)
  }

  /** All names resolve to one backend; several share a router and one address. */
  ghost predicate Servable(names: seq<string>, lookup: Lookup) {
    && (forall n :: n in names ==> lookup(n).Some?)
    && (|names| > 1 ==> forall n :: n in names ==>
          lookup(n).value == lookup(names[0]).value && !lookup(n).value.backend.exclusive)
  }

  method ValidateAutostart(names: seq<string>, lookup: Lookup) returns (ok: bool)
    requires Registered(names, lookup)
    ensures ok <==> Servable(names, lookup)
  {
    var backend, address, singleActive := "", "", false;
    for i := 0 to |names|
      invariant backend == "" <==> i == 0
      invariant i == 0 ==> !singleActive
      invariant forall j :: 0 <= j < i ==> lookup(names[j]).Some?
      invariant i > 0 ==>
        var first := lookup(names[0]).value;
        first.backend == Backend(backend, singleActive) && first.address == address
      invariant forall j :: 0 <= j < i ==> lookup(names[j]).value.backend.name == backend
      invariant |names| > 1 && !singleActive ==>
        forall j :: 0 <= j < i ==> lookup(names[j]).value.address == address
    {
      var found := lookup(names[i]);
      if found.None? {
        return false;
      }
      var candidate := found.value;
      if backend == "" {
        backend, address, singleActive :=
          candidate.backend.name, candidate.address, candidate.backend.exclusive;
      } else if candidate.backend.name != backend {
        return false;
      }
      if |names| > 1 && !singleActive && candidate.address != address {
        return false;
      }
    }
    if singleActive && |names| > 1 {
      return false;
    }
    return true;
  }

  /** From a serving slot, the rest starts exactly when every name joins the same router. */
  lemma {:induction false} StartAllFromServing(ctl: Control, b: Backend, names: seq<string>, lookup: Lookup, engine: Proc)
    requires Serving(ctl, b)
    requires forall n :: n in names && lookup(n).Some? && lookup(n).value.backend.name == b.name ==>
               lookup(n).value.backend == b
    ensures var r := StartAll(ctl, names, lookup, engine);
            && (r.Some? <==> forall n :: n in names ==>
                  lookup(n) == Some(Info(b, ctl.slot.value.address)) && !b.exclusive)
            && (r.Some? ==> Serving(r.value, b) && Held(r.value) == Held(ctl) + (set n | n in names))
    decreases |names|
  {
    if names != [] && lookup(names[0]) == Some(Info(b, ctl.slot.value.address)) && !b.exclusive {
      var next := StartCall(ctl, lookup(names[0]).value, names[0], false, engine).value;
      StartAllFromServing(next, b, names[1..], lookup, engine);
      assert forall n :: n in names <==> n == names[0] || n in names[1..];
    }
  }

  /**
   The validator accepts exactly the lists the machine can start from an empty
   slot without replace, and the slot then serves exactly that set.
   */
  lemma ServableIffStartable(names: seq<string>, lookup: Lookup, engine: Proc)
    requires Registered(names, lookup)
    ensures var r := StartAll(EmptyControl, names, lookup, engine);
            && (r.Some? <==> Servable(names, lookup))
            && (r.Some? ==> Held(r.value) == set n | n in names)
  {
    if names != [] && lookup(names[0]).Some? {
      var info := lookup(names[0]).value;
      var first := StartCall(EmptyControl, info, names[0], false, engine).value;
      StartAllFromServing(first, info.backend, names[1..], lookup, engine);
      assert forall n :: n in names <==> n == names[0] || n in names[1..];
    }
  }

  /** Acceptance does not depend on the order, so the lexical order autostart uses is as good as any. */
  lemma AnyOrderStarts(names: seq<string>, order: seq<string>, lookup: Lookup, engine: Proc)
    requires Registered(names, lookup) && multiset(order) == multiset(names)
    ensures StartAll(EmptyControl, order, lookup, engine).Some? <==> Servable(names, lookup)
    ensures Servable(names, lookup) ==>
              Held(StartAll(EmptyControl, order, lookup, engine).value) == set n | n in names
  {
    assert forall n :: n in order <==> n in multiset(order);
    assert forall n :: n in names <==> n in multiset(names);
    assert |order| == |multiset(order)| == |names|;
    ServableIffStartable(order, lookup, engine);
    if |names| > 0 {
      assert order[0] in names && names[0] in order;
    }
  }
}
