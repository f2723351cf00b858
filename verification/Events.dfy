/**
 The event store: a bounded ring of the latest events, and subscribers that take
 a snapshot of it together with a buffered channel for what comes next. A full
 channel is skipped. `D` is what an event says besides its id.
 */
module Events {
  const DefaultEventLimit: nat := 200
  const ChannelSize: nat := 100

  datatype Event<D> = Event(id: nat, detail: D)

  /** The last `n` of a list. */
  function Last<T>(s: seq<T>, n: nat): seq<T> {
    if |s| > n then s[|s| - n..] else s
  }

  /** The append and the trim of one recording. */
  function Push<T>(events: seq<T>, limit: nat, event: T): seq<T> {
    var more := events + [event];
    if |more| > limit then more[1..] else more
  }

  /** The send to a channel that may be full. */
  function Offer<T>(buffer: seq<T>, event: T): seq<T> {
    if |buffer| < ChannelSize then buffer + [event] else buffer
  }

  function OfferAll<T>(subs: map<Channel, seq<T>>, event: T): map<Channel, seq<T>> {
    map ch | ch in subs :: Offer(subs[ch], event)
  }

  // ------------------------------------------------------------------
  // The store
  // ------------------------------------------------------------------

  type Channel = nat

  /** What the store's mutex guards: the ring, the counter, and what is in each channel. */
  datatype Guarded<D> = Guarded(events: seq<Event<D>>, nextId: nat, subs: map<Channel, seq<Event<D>>>)

  /** A store in this state is the guarded part of `w`. */
  ghost predicate Shows<D>(g: Guarded<D>, w: World<D>) {
    && g.events == w.events && g.nextId == |w.history| && g.subs.Keys == w.subs.Keys
    && forall ch :: ch in g.subs ==> g.subs[ch] == w.subs[ch].buffer
  }

  class EventStore<D> {
    var events: seq<Event<D>>
    var limit: nat
    var subs: map<Channel, seq<Event<D>>>
    var nextId: nat

    ghost function View(): Guarded<D>
      reads this
    {
      Guarded(events, nextId, subs)
    }

    constructor (wanted: int)
      ensures events == [] && subs == map[] && nextId == 0 && Shows(View(), Boot())
      ensures limit == if wanted <= 0 then DefaultEventLimit else wanted
    {
      events, subs, nextId := [], map[], 0;
      limit := if wanted <= 0 then DefaultEventLimit else wanted;
    }

    method Record(detail: D)
      modifies this
      ensures nextId == old(nextId) + 1 && limit == old(limit)
      ensures events == Push(old(events), limit, Event(nextId, detail))
      ensures subs == OfferAll(old(subs), Event(nextId, detail))
      ensures forall w :: Shows(old(View()), w) ==> Shows(View(), Next(w, limit, Recording(detail)))
    {
      nextId := nextId + 1;
      var recorded := Event(nextId, detail);
      events := events + [recorded];
      if |events| > limit {
        events := events[1..];
      }
      Broadcast(recorded);
    }

    /** The sends, in whatever order the channels come. */
    method Broadcast(recorded: Event<D>)
      modifies this`subs
      ensures subs == OfferAll(old(subs), recorded)
    {
      var todo := subs.Keys;
      while todo != {}
        invariant todo <= subs.Keys == old(subs).Keys
        invariant forall ch :: ch in subs ==>
                    subs[ch] == if ch in todo then old(subs)[ch] else Offer(old(subs)[ch], recorded)
        decreases todo
      {
        var ch :| ch in todo;
        if |subs[ch]| < ChannelSize {
          subs := subs[ch := subs[ch] + [recorded]];
        }
        todo := todo - {ch};
      }
    }

    /** Newest first. */
    method List() returns (out: seq<Event<D>>)
      ensures |out| == |events| && forall i :: 0 <= i < |out| ==> out[i] == events[|events| - 1 - i]
    {
      out := seq(|events|, i requires 0 <= i < |events| reads this => events[|events| - 1 - i]);
    }

    method SubscribeAndList(ch: Channel) returns (backlog: seq<Event<D>>)
      requires ch !in subs
      modifies this`subs
      ensures subs == old(subs)[ch := []] && backlog == events
      ensures forall w :: Shows(old(View()), w) ==>
                var after := Next(w, limit, Subscribe(ch));
                Shows(View(), after) && after.subs[ch] == Sub(backlog, [], [], 0)
    {
      subs := subs[ch := []];
      backlog := events;
    }

    method Unsubscribe(ch: Channel)
      modifies this`subs
      ensures subs == old(subs) - {ch}
      ensures forall w :: Shows(old(View()), w) ==> Shows(View(), Next(w, limit, Leave(ch)))
    {
      subs := subs - {ch};
    }

    /** A subscriber takes the next event from its channel. */
    method Take(ch: Channel) returns (event: Event<D>)
      requires ch in subs && subs[ch] != []
      modifies this`subs
      ensures ch in subs && old(subs)[ch] == [event] + subs[ch] && subs == old(subs)[ch := subs[ch]]
      ensures forall w :: Shows(old(View()), w) ==>
                var after := Next(w, limit, Receive(ch));
                Shows(View(), after) && after.subs[ch].received == w.subs[ch].received + [event]
    {
      event := subs[ch][0];
      subs := subs[ch := subs[ch][1..]];
    }
  }

  // ------------------------------------------------------------------
  // Any run of recordings and subscriptions
  // ------------------------------------------------------------------

  /** One subscriber's view: its snapshot, what it took from the channel, and what is still in it. */
  datatype Sub<D> = Sub(backlog: seq<Event<D>>, received: seq<Event<D>>, buffer: seq<Event<D>>, skipped: nat) {
    function Seen(): seq<Event<D>> { backlog + received + buffer }
  }

  datatype World<D> = World(events: seq<Event<D>>, subs: map<Channel, Sub<D>>, history: seq<D>)

  datatype Step<D> =
    | Recording(detail: D)
    | Subscribe(ch: Channel)
    | Receive(ch: Channel)
    | Leave(ch: Channel)

  function Boot<D>(): World<D> { World([], map[], []) }

  function Offered<D>(sub: Sub<D>, event: Event<D>): Sub<D> {
    if |sub.buffer| < ChannelSize then sub.(buffer := Offer(sub.buffer, event)) else sub.(skipped := sub.skipped + 1)
  }

  function Next<D>(w: World<D>, limit: nat, step: Step<D>): World<D> {
    match step
    case Recording(detail) =>
      var event := Event(|w.history| + 1, detail);
      World(Push(w.events, limit, event), map ch | ch in w.subs :: Offered(w.subs[ch], event), w.history + [detail])
    case Subscribe(ch) =>
      if ch in w.subs then w else w.(subs := w.subs[ch := Sub(w.events, [], [], 0)])
    case Receive(ch) =>
      if ch in w.subs && w.subs[ch].buffer != [] then
        var sub := w.subs[ch];
        w.(subs := w.subs[ch := sub.(received := sub.received + [sub.buffer[0]], buffer := sub.buffer[1..])])
      else w
    case Leave(ch) => w.(subs := w.subs - {ch})
  }

  function Run<D>(limit: nat, steps: seq<Step<D>>): World<D> {
    if steps == [] then Boot() else Next(Run(limit, steps[..|steps| - 1]), limit, steps[|steps| - 1])
  }

  /** The whole history as events: the i-th recording has id i. */
  function Numbered<D>(history: seq<D>): seq<Event<D>> {
    seq(|history|, i requires 0 <= i < |history| => Event(i + 1, history[i]))
  }

  /** Events of the history, each at most once and in order. */
  ghost predicate InOrder<D>(seen: seq<Event<D>>, history: seq<D>) {
    && (forall i, j :: 0 <= i < j < |seen| ==> seen[i].id < seen[j].id)
    && (forall i :: 0 <= i < |seen| ==> 1 <= seen[i].id <= |history| && seen[i].detail == history[seen[i].id - 1])
  }

  /** The latest events, without a gap or a repeat. */
  ghost predicate Complete<D>(seen: seq<Event<D>>, history: seq<D>) {
    |seen| <= |history| && seen == Last(Numbered(history), |seen|)
  }

  /** An event past the first one seen that was never seen. */
  ghost predicate Misses<D>(seen: seq<Event<D>>, history: seq<D>, id: nat) {
    seen != [] && seen[0].id < id <= |history| && forall i :: 0 <= i < |seen| ==> seen[i].id != id
  }

  ghost predicate Tracks<D>(seen: seq<Event<D>>, history: seq<D>, skipped: nat) {
    InOrder(seen, history) && if skipped == 0 then Complete(seen, history) else exists id: nat :: Misses(seen, history, id)
  }

  ghost predicate Inv<D>(w: World<D>, limit: nat) {
    && w.events == Last(Numbered(w.history), limit)
    && forall ch :: ch in w.subs ==> Tracks(w.subs[ch].Seen(), w.history, w.subs[ch].skipped)
  }

  lemma NumberedGrows<D>(history: seq<D>, detail: D)
    ensures Numbered(history + [detail]) == Numbered(history) + [Event(|history| + 1, detail)]
  {
  }

  lemma LastGrows<T>(s: seq<T>, x: T, n: nat)
    ensures Last(s + [x], n + 1) == Last(s, n) + [x]
  {
  }

  /** The ring after one more recording. */
  lemma PushKeepsLast<T>(s: seq<T>, x: T, limit: nat)
    ensures Push(Last(s, limit), limit, x) == Last(s + [x], limit)
  {
  }

  /** The snapshot a subscriber starts from is complete. */
  lemma LastIsComplete<D>(history: seq<D>, limit: nat)
    ensures Tracks(Last(Numbered(history), limit), history, 0)
  {
    var seen := Last(Numbered(history), limit);
    assert forall i :: 0 <= i < |seen| ==> seen[i].id == |history| - |seen| + i + 1;
  }

  lemma DeliveryTracks<D>(seen: seq<Event<D>>, history: seq<D>, skipped: nat, detail: D)
    requires Tracks(seen, history, skipped)
    ensures Tracks(seen + [Event(|history| + 1, detail)], history + [detail], skipped)
  {
    var event := Event(|history| + 1, detail);
    var more, longer := seen + [event], history + [detail];
    assert forall i :: 0 <= i < |seen| ==> more[i] == seen[i];
    if skipped == 0 {
      NumberedGrows(history, detail);
      LastGrows(Numbered(history), event, |seen|);
    } else {
      var id: nat :| Misses(seen, history, id);
      assert Misses(more, longer, id);
    }
  }

  /** A full channel held events, so a skip leaves a gap after them. */
  lemma SkipTracks<D>(seen: seq<Event<D>>, history: seq<D>, skipped: nat, detail: D)
    requires Tracks(seen, history, skipped) && seen != []
    ensures Tracks(seen, history + [detail], skipped + 1)
  {
    assert Misses(seen, history + [detail], |history| + 1);
  }

  lemma OfferTracks<D>(sub: Sub<D>, history: seq<D>, detail: D)
    requires Tracks(sub.Seen(), history, sub.skipped)
    ensures var after := Offered(sub, Event(|history| + 1, detail));
            Tracks(after.Seen(), history + [detail], after.skipped)
  {
    var event := Event(|history| + 1, detail);
    var after := Offered(sub, event);
    if |sub.buffer| < ChannelSize {
      assert after.Seen() == sub.Seen() + [event];
      DeliveryTracks(sub.Seen(), history, sub.skipped, detail);
    } else {
      SkipTracks(sub.Seen(), history, sub.skipped, detail);
    }
  }

  lemma RecordingKeepsInv<D>(w: World<D>, limit: nat, detail: D)
    requires Inv(w, limit)
    ensures Inv(Next(w, limit, Recording(detail)), limit)
  {
    var event := Event(|w.history| + 1, detail);
    NumberedGrows(w.history, detail);
    PushKeepsLast(Numbered(w.history), event, limit);
    var after := Next(w, limit, Recording(detail));
    forall ch | ch in after.subs ensures Tracks(after.subs[ch].Seen(), after.history, after.subs[ch].skipped) {
      OfferTracks(w.subs[ch], w.history, detail);
    }
  }

  lemma NextKeepsInv<D>(w: World<D>, limit: nat, step: Step<D>)
    requires Inv(w, limit)
    ensures Inv(Next(w, limit, step), limit)
  {
    match step
    case Recording(detail) =>
      RecordingKeepsInv(w, limit, detail);
    case Subscribe(ch) =>
      LastIsComplete(w.history, limit);
      assert Sub(w.events, [], [], 0).Seen() == w.events;
    case Receive(ch) =>
      if ch in w.subs && w.subs[ch].buffer != [] {
        assert Next(w, limit, step).subs[ch].Seen() == w.subs[ch].Seen();
      }
    case Leave(_) =>
  }

  lemma {:induction false} EveryRunKeepsInv<D>(limit: nat, steps: seq<Step<D>>)
    ensures Inv(Run(limit, steps), limit)
  {
    if steps != [] {
      EveryRunKeepsInv(limit, steps[..|steps| - 1]);
      NextKeepsInv(Run(limit, steps[..|steps| - 1]), limit, steps[|steps| - 1]);
    }
  }

  /** After any recordings the ring holds the last of them, as many as the limit, with consecutive ids. */
  lemma RingHoldsTheLatest<D>(limit: nat, steps: seq<Step<D>>)
    ensures var w := Run(limit, steps);
            && |w.events| == (if |w.history| > limit then limit else |w.history|)
            && forall i :: 0 <= i < |w.events| ==>
                 var n := |w.history| - |w.events| + i;
                 w.events[i] == Event(n + 1, w.history[n])
  {
    EveryRunKeepsInv(limit, steps);
  }

  lemma CompleteHasEveryId<D>(seen: seq<Event<D>>, history: seq<D>, id: nat)
    requires Complete(seen, history) && seen != [] && seen[0].id <= id <= |history|
    ensures exists i :: 0 <= i < |seen| && seen[i].id == id
  {
    var first := |history| - |seen|;
    assert forall i :: 0 <= i < |seen| ==> seen[i] == Numbered(history)[first + i];
    assert seen[id - 1 - first].id == id;
  }

  lemma CompleteIffNothingMissed<D>(seen: seq<Event<D>>, history: seq<D>, skipped: nat)
    requires Tracks(seen, history, skipped)
    ensures Complete(seen, history) <==> skipped == 0
  {
    if skipped > 0 && Complete(seen, history) {
      var id: nat :| Misses(seen, history, id);
      CompleteHasEveryId(seen, history, id);
    }
  }

  /**
   A subscriber's backlog followed by its deliveries has strictly increasing ids;
   it is the latest events without gap or repeat exactly when no send found the
   channel full.
   */
  lemma SubscriberSeesInOrder<D>(limit: nat, steps: seq<Step<D>>, ch: Channel)
    requires ch in Run(limit, steps).subs
    ensures var w := Run(limit, steps);
            && InOrder(w.subs[ch].Seen(), w.history)
            && (Complete(w.subs[ch].Seen(), w.history) <==> w.subs[ch].skipped == 0)
  {
    EveryRunKeepsInv(limit, steps);
    var w := Run(limit, steps);
    CompleteIffNothingMissed(w.subs[ch].Seen(), w.history, w.subs[ch].skipped);
  }
}
