/**
 The watch stream over the local Pipe projection: each poll emits the difference between the previous and
 the current views (internal/cli/pipe_views.go:422-445 and 491-565).
 */
module PipeWatch {
  import opened Units
  import opened Wrappers
  import opened TimeText

  /** A view by the fields the diff reads; `rest` is everything else. */
  datatype View = View(
    scope: string, id: string, name: string, status: string, source: string, freshness: string,
    expiresAt: Option<Time>, rest: string)

  datatype EventType = Added | Removed | Expired | Degraded | Recovered | Updated

  datatype Event = Event(
    eventType: EventType, scope: string, pipeId: string, name: string,
    changed: seq<string>, item: Option<View>, previous: Option<View>, observedAt: Time)

  type Projection = map<string, View>

  function Key(v: View): string {
    v.scope + "\0" + v.id
  }

  function EventKey(e: Event): string {
    e.scope + "\0" + e.pipeId
  }

  predicate Keyed(m: Projection) {
    forall k | k in m :: Key(m[k]) == k
  }

  function ChangedFields(before: View, after: View): (changed: seq<string>)
    ensures changed == [] <==> SameEvidence(before, after)
  {
    (if before.status != after.status then ["status"] else [])
    + (if before.source != after.source then ["source"] else [])
    + (if before.freshness != after.freshness then ["freshness"] else [])
  }

  predicate SameEvidence(a: View, b: View) {
    a.status == b.status && a.source == b.source && a.freshness == b.freshness
  }

  predicate HasNetworkSource(v: View) {
    v.source == "network" || v.source == "local+network"
  }

  predicate Elapsed(v: View, at: Time) {
    v.expiresAt.Some? && v.expiresAt.value <= at
  }

  function ChangeType(before: View, after: View, at: Time): EventType {
    if Elapsed(before, at) && HasNetworkSource(before) && !HasNetworkSource(after) then Expired
    else if before.status != "degraded" && after.status == "degraded" then Degraded
    else if before.status == "degraded" && after.status != "degraded" then Recovered
    else Updated
  }

  /** The event for one key, if its difference makes one. */
  function EventFor(previous: Projection, current: Projection, key: string, at: Time): Option<Event> {
    if key !in previous && key in current then
      var v := current[key];
      Some(Event(Added, v.scope, v.id, v.name, [], Some(v), None, at))
    else if key in previous && key !in current then
      var v := previous[key];
      Some(Event(if Elapsed(v, at) then Expired else Removed, v.scope, v.id, v.name, [], None, Some(v), at))
    else if key in previous && key in current && ChangedFields(previous[key], current[key]) != [] then
      var before, after := previous[key], current[key];
      Some(Event(ChangeType(before, after, at), after.scope, after.id, after.name,
                 ChangedFields(before, after), Some(after), Some(before), at))
    else None
  }

  function Lookup(m: Projection, key: string): Option<View> {
    if key in m then Some(m[key]) else None
  }

  predicate IsDegraded(v: Option<View>) {
    v.Some? && v.value.status == "degraded"
  }

  predicate OnNetwork(v: Option<View>) {
    v.Some? && v.value.source in ["network", "local+network"]
  }

  /** The view had an expiry, and it has passed. */
  predicate HadElapsed(v: Option<View>, at: Time) {
    v.Some? && v.value.expiresAt.Some? && v.value.expiresAt.value <= at
  }

  predicate Differs(field: string, a: View, b: View) {
    || (field == "status" && a.status != b.status)
    || (field == "source" && a.source != b.source)
    || (field == "freshness" && a.freshness != b.freshness)
  }

  /** These are the fields that differ, each once, in the order status, source, freshness. */
  ghost predicate Labels(changed: seq<string>, a: View, b: View) {
    && (forall f :: f in changed <==> Differs(f, a, b))
    && (forall i, j | 0 <= i < j < |changed| ::
          changed[i] != changed[j] && changed[i] != "freshness" && changed[j] != "status")
  }

  /** Which kind of event tells of this change; an expiry outranks a change of status. */
  predicate Tells(kind: EventType, before: Option<View>, after: Option<View>, at: Time) {
    var expired := HadElapsed(before, at) && (after.None? || (OnNetwork(before) && !OnNetwork(after)));
    match kind
    case Added => before.None?
    case Removed => after.None? && !expired
    case Expired => expired
    case Degraded => before.Some? && after.Some? && !expired && !IsDegraded(before) && IsDegraded(after)
    case Recovered => before.Some? && after.Some? && !expired && IsDegraded(before) && !IsDegraded(after)
    case Updated => before.Some? && after.Some? && !expired && IsDegraded(before) == IsDegraded(after)
  }

  /** The event shows the view before and after, names the Pipe of the newer one, and lists what differs. */
  ghost predicate Shows(e: Event, before: Option<View>, after: Option<View>, at: Time) {
    && Tells(e.eventType, before, after, at)
    && e.item == after && e.previous == before && e.observedAt == at && (before.Some? || after.Some?)
    && (var shown := if after.Some? then after.value else before.value;
        e.scope == shown.scope && e.pipeId == shown.id && e.name == shown.name)
    && (before.None? || after.None? ==> e.changed == [])
    && (before.Some? && after.Some? ==> Labels(e.changed, before.value, after.value))
  }

  /** A key has an event exactly when it came, went, or changed its evidence. */
  predicate Changed(before: Option<View>, after: Option<View>) {
    || before.Some? != after.Some?
    || (before.Some? && after.Some? && !SameEvidence(before.value, after.value))
  }

  lemma ChangedLabels(before: View, after: View)
    ensures Labels(ChangedFields(before, after), before, after)
  {
    assert "status" != "source" by { assert |"status"| == |"source"| && "status"[1] != "source"[1]; }
    assert |"freshness"| != |"status"| && |"freshness"| != |"source"|;
  }

  lemma EventShows(previous: Projection, current: Projection, key: string, at: Time)
    ensures var e := EventFor(previous, current, key, at);
      && (e.Some? <==> Changed(Lookup(previous, key), Lookup(current, key)))
      && (e.Some? ==> Shows(e.value, Lookup(previous, key), Lookup(current, key), at))
  {
    hide ChangedFields, Labels;
    if key in previous && key in current {
      ChangedLabels(previous[key], current[key]);
    }
  }

  /** A scope without a NUL and a Pipe ID are told by their key. */
  lemma KeyTellsViewsApart(v: View, w: View)
    requires '\0' !in v.scope && '\0' !in w.scope && Key(v) == Key(w)
    ensures v.scope == w.scope && v.id == w.id
  {
    var a, b := |v.scope|, |w.scope|;
    assert Key(v)[a] == '\0' && Key(w)[b] == '\0';
    assert v.scope == Key(v)[..a] && w.scope == Key(w)[..b];
    assert v.id == Key(v)[a + 1..] && w.id == Key(w)[b + 1..];
  }

  // ---- sorted keys

  predicate Increasing(keys: seq<string>) {
    forall i, j | 0 <= i < j < |keys| :: Less(keys[i], keys[j])
  }

  /** Insertion into an increasing sequence. */
  method Insert(keys: seq<string>, key: string) returns (r: seq<string>)
    requires Increasing(keys) && key !in keys
    ensures Increasing(r) && forall k :: k in r <==> k in keys || k == key
  {
    var i := 0;
    while i < |keys| && Less(keys[i], key)
      invariant 0 <= i <= |keys|
      invariant forall j | 0 <= j < i :: Less(keys[j], key)
    {
      i := i + 1;
    }
    r := keys[..i] + [key] + keys[i..];
    forall j | i <= j < |keys|
      ensures Less(key, keys[j])
    {
      LessIsStrict(keys[i], key);
      if j > i {
        LessIsTransitive(key, keys[i], keys[j]);
      }
    }
    forall k
      ensures k in r <==> k in keys || k == key
    {
      assert keys == keys[..i] + keys[i..];
    }
  }

  /** sort.Strings of the keys of both projections, each once. */
  method SortedKeys(previous: Projection, current: Projection) returns (keys: seq<string>)
    ensures Increasing(keys) && forall k :: k in keys <==> k in previous || k in current
  {
    keys := [];
    var todo := previous.Keys + current.Keys;
    while todo != {}
      invariant Increasing(keys)
      invariant forall k :: k in previous || k in current <==> k in keys || k in todo
      invariant forall k | k in todo :: k !in keys
      decreases todo
    {
      var key :| key in todo;
      keys := Insert(keys, key);
      todo := todo - {key};
    }
  }

  // ---- the diff

  function KeysOf(events: seq<Event>): seq<string> {
    seq(|events|, i requires 0 <= i < |events| => EventKey(events[i]))
  }

  /** At most one event per key, in increasing key order: exactly the events that the difference makes. */
  ghost predicate Describes(events: seq<Event>, previous: Projection, current: Projection, at: Time) {
    && Increasing(KeysOf(events))
    && (forall i | 0 <= i < |events| :: EventFor(previous, current, EventKey(events[i]), at) == Some(events[i]))
    && (forall key | EventFor(previous, current, key, at).Some? :: key in KeysOf(events))
  }

  lemma EventForKey(previous: Projection, current: Projection, key: string, at: Time)
    requires Keyed(previous) && Keyed(current) && EventFor(previous, current, key, at).Some?
    ensures EventKey(EventFor(previous, current, key, at).value) == key
  {}

  method DiffPipeViews(previous: Projection, current: Projection, at: Time) returns (events: seq<Event>)
    requires Keyed(previous) && Keyed(current)
    ensures Describes(events, previous, current, at)
    ensures forall i | 0 <= i < |events| ::
      Shows(events[i], Lookup(previous, EventKey(events[i])), Lookup(current, EventKey(events[i])), at)
    ensures forall key :: key in KeysOf(events) <==> Changed(Lookup(previous, key), Lookup(current, key))
  {
    hide EventFor, Less, Shows, Changed;
    var keys := SortedKeys(previous, current);
    events := [];
    for n := 0 to |keys|
      invariant Increasing(KeysOf(events))
      invariant forall i | 0 <= i < |events| :: EventFor(previous, current, EventKey(events[i]), at) == Some(events[i])
      invariant forall k | 0 <= k < n && EventFor(previous, current, keys[k], at).Some? :: keys[k] in KeysOf(events)
      invariant forall i | 0 <= i < |events| :: EventKey(events[i]) in keys[..n]
    {
      var e := EventFor(previous, current, keys[n], at);
      if e.Some? {
        EventForKey(previous, current, keys[n], at);
        ghost var before := events;
        events := events + [e.value];
        assert KeysOf(events) == KeysOf(before) + [keys[n]];
      }
      assert keys[..n + 1] == keys[..n] + [keys[n]];
    }
    forall key | EventFor(previous, current, key, at).Some?
      ensures key in KeysOf(events)
    {
      assert key in keys by { EventHasKey(previous, current, key, at); }
    }
    DescribedShows(events, previous, current, at);
  }

  lemma DescribedShows(events: seq<Event>, previous: Projection, current: Projection, at: Time)
    requires Describes(events, previous, current, at)
    ensures forall i | 0 <= i < |events| ::
      Shows(events[i], Lookup(previous, EventKey(events[i])), Lookup(current, EventKey(events[i])), at)
    ensures forall key :: key in KeysOf(events) <==> Changed(Lookup(previous, key), Lookup(current, key))
  {
    hide EventFor, Shows, Changed, Increasing;
    forall i | 0 <= i < |events|
      ensures Shows(events[i], Lookup(previous, EventKey(events[i])), Lookup(current, EventKey(events[i])), at)
    {
      EventShows(previous, current, EventKey(events[i]), at);
    }
    forall key
      ensures key in KeysOf(events) <==> Changed(Lookup(previous, key), Lookup(current, key))
    {
      EventShows(previous, current, key, at);
    }
  }

  lemma EventHasKey(previous: Projection, current: Projection, key: string, at: Time)
    requires EventFor(previous, current, key, at).Some?
    ensures key in previous || key in current
  {}

  // ---- replaying the stream

  function Apply(m: Projection, e: Event): Projection {
    if e.item.Some? then m[EventKey(e) := e.item.value] else m - {EventKey(e)}
  }

  function Replay(m: Projection, events: seq<Event>): Projection {
    if events == [] then m else Apply(Replay(m, events[..|events| - 1]), events[|events| - 1])
  }

  /** Same keys, and the same status, source and freshness under each. */
  predicate Agrees(a: Projection, b: Projection) {
    a.Keys == b.Keys && forall k | k in a :: SameEvidence(a[k], b[k])
  }

  /** A key without an event keeps its view; a key with one has that event's item, or none. */
  lemma {:induction false} ReplayAt(m: Projection, events: seq<Event>, key: string)
    requires Increasing(KeysOf(events))
    ensures key !in KeysOf(events) ==>
      (key in Replay(m, events) <==> key in m) && (key in m ==> Replay(m, events)[key] == m[key])
    ensures forall i | 0 <= i < |events| && EventKey(events[i]) == key ::
              && (key in Replay(m, events) <==> events[i].item.Some?)
              && (events[i].item.Some? ==> Replay(m, events)[key] == events[i].item.value)
  {
    if events != [] {
      var n := |events| - 1;
      var init := events[..n];
      assert KeysOf(events) == KeysOf(init) + [EventKey(events[n])];
      assert forall i | 0 <= i < n :: KeysOf(events)[i] == KeysOf(init)[i];
      ReplayAt(m, init, key);
      forall i | 0 <= i < n
        ensures EventKey(events[i]) != EventKey(events[n])
      {
        assert KeysOf(events)[i] == EventKey(events[i]);
        LessIsStrict(KeysOf(events)[i], KeysOf(events)[n]);
      }
    }
  }

  /** A replica that agreed with the previous projection agrees with the current one after the events. */
  lemma PollTracks(replica: Projection, previous: Projection, current: Projection, events: seq<Event>, at: Time)
    requires Keyed(previous) && Keyed(current) && Agrees(replica, previous) && Describes(events, previous, current, at)
    ensures Agrees(Replay(replica, events), current)
  {
    var next := Replay(replica, events);
    forall key
      ensures key in next <==> key in current
      ensures key in next ==> SameEvidence(next[key], current[key])
    {
      KeyTracks(replica, previous, current, events, at, key);
    }
  }

  lemma KeyTracks(
    replica: Projection, previous: Projection, current: Projection, events: seq<Event>, at: Time, key: string)
    requires Keyed(previous) && Keyed(current) && Agrees(replica, previous) && Describes(events, previous, current, at)
    ensures key in Replay(replica, events) <==> key in current
    ensures key in current ==> SameEvidence(Replay(replica, events)[key], current[key])
  {
    hide Increasing;
    ReplayAt(replica, events, key);
    if key in KeysOf(events) {
      var i :| 0 <= i < |events| && KeysOf(events)[i] == key;
      assert EventFor(previous, current, key, at) == Some(events[i]);
    }
  }

  /** What each event type says about a key before and after. */
  predicate Announces(kind: EventType, before: Option<View>, after: Option<View>) {
    match kind
    case Added => before.None? && after.Some?
    case Removed => before.Some? && after.None?
    case Expired => before.Some? && (after.None? || (OnNetwork(before) && !OnNetwork(after)))
    case Degraded => before.Some? && !IsDegraded(before) && IsDegraded(after)
    case Recovered => IsDegraded(before) && after.Some? && !IsDegraded(after)
    case Updated => before.Some? && after.Some? && IsDegraded(before) == IsDegraded(after)
  }

  /** Each event's type is true of what a consumer who replays the stream sees around the poll. */
  lemma TypesAreTrue(
    replica: Projection, previous: Projection, current: Projection, events: seq<Event>, at: Time, i: nat)
    requires Keyed(previous) && Keyed(current) && Agrees(replica, previous) && Describes(events, previous, current, at)
    requires i < |events|
    ensures var key := EventKey(events[i]);
      Announces(events[i].eventType, Lookup(replica, key), Lookup(Replay(replica, events), key))
  {
    hide Increasing, Replay;
    KeyTracks(replica, previous, current, events, at, EventKey(events[i]));
  }

  /** One poll of a run: what it saw, when, and what it emitted. */
  datatype Poll = Poll(current: Projection, at: Time, events: seq<Event>)

  function Before(polls: seq<Poll>, k: nat): Projection
    requires k <= |polls|
  {
    if k == 0 then map[] else polls[k - 1].current
  }

  ghost predicate IsWatch(polls: seq<Poll>) {
    forall k | 0 <= k < |polls| ::
      Keyed(polls[k].current) && Describes(polls[k].events, Before(polls, k), polls[k].current, polls[k].at)
  }

  /** Everything the first k polls emitted. */
  function Stream(polls: seq<Poll>, k: nat): seq<Event>
    requires k <= |polls|
  {
    if k == 0 then [] else Stream(polls, k - 1) + polls[k - 1].events
  }

  lemma {:induction false} ReplayAppend(m: Projection, a: seq<Event>, b: seq<Event>)
    ensures Replay(m, a + b) == Replay(Replay(m, a), b)
  {
    if b == [] {
      assert a + b == a;
    } else {
      var n := |b| - 1;
      ReplayAppend(m, a, b[..n]);
      assert (a + b)[..|a + b| - 1] == a + b[..n];
    }
  }

  /** After every poll of every run, replaying the whole stream gives the current projection's evidence. */
  lemma {:induction false} StreamTracks(polls: seq<Poll>, k: nat)
    requires IsWatch(polls) && k <= |polls|
    ensures Agrees(Replay(map[], Stream(polls, k)), Before(polls, k))
  {
    hide Describes, Keyed;
    if k > 0 {
      hide Agrees, Replay;
      StreamTracks(polls, k - 1);
      ReplayAppend(map[], Stream(polls, k - 1), polls[k - 1].events);
      BeforeIsKeyed(polls, k - 1);
      var p := polls[k - 1];
      PollTracks(Replay(map[], Stream(polls, k - 1)), Before(polls, k - 1), p.current, p.events, p.at);
    }
  }

  lemma BeforeIsKeyed(polls: seq<Poll>, k: nat)
    requires IsWatch(polls) && k <= |polls|
    ensures Keyed(Before(polls, k))
  {
    hide Describes;
  }

  /** The current projection; of two items with one key the later one counts. */
  method Collect(items: seq<View>) returns (current: Projection)
    ensures Keyed(current)
    ensures forall k :: k in current <==> exists i | 0 <= i < |items| :: Key(items[i]) == k
    ensures forall i | 0 <= i < |items| && (forall j | i < j < |items| :: Key(items[j]) != Key(items[i])) ::
              current[Key(items[i])] == items[i]
  {
    hide Key;
    current := map[];
    for n := 0 to |items|
      invariant Keyed(current)
      invariant forall k :: k in current <==> exists i | 0 <= i < n :: Key(items[i]) == k
      invariant forall i | 0 <= i < n && (forall j | i < j < n :: Key(items[j]) != Key(items[i])) ::
                  current[Key(items[i])] == items[i]
    {
      current := current[Key(items[n]) := items[n]];
    }
  }

  /** The poll closure of watchPipes and the projection it keeps. */
  class Watcher {
    var previous: Projection

    constructor ()
      ensures previous == map[]
    {
      previous := map[];
    }

    method PollViews(items: seq<View>, at: Time) returns (events: seq<Event>)
      requires Keyed(previous)
      modifies this
      ensures Keyed(previous) && Describes(events, old(previous), previous, at)
      ensures forall k :: k in previous <==> exists i | 0 <= i < |items| :: Key(items[i]) == k
      ensures forall i | 0 <= i < |items| && (forall j | i < j < |items| :: Key(items[j]) != Key(items[i])) ::
                previous[Key(items[i])] == items[i]
    {
      hide Describes, Key;
      var current := Collect(items);
      events := DiffPipeViews(previous, current, at);
      previous := current;
    }
  }
}
