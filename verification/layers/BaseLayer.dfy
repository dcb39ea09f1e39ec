/**
 The layer controller that coalesces snapshots and reconciles its entities with the last one, skipping the sweep when
 sizes say it has nothing to remove (packages/cesium-kit/src/baseLayer.ts).
 */
module BaseLayer {
  import opened Prelude

  type Id = string

  /**
   An item of a snapshot: missing, or with the id the layer extracts from it, which may be empty, and what the layer's
   `processEntity` can show of it. Most layers return early, and register nothing, for an item without a position.
   */
  datatype Item = Missing | Present(id: Id, payload: Option<int>)

  type Snapshot = seq<Item>

  predicate Counts(item: Item) { item.Present? && item.id != "" }

  predicate Shows(item: Item) { Counts(item) && item.payload.Some? }

  /** The ids a snapshot asks for. */
  function IdsOf(items: Snapshot): set<Id> {
    if items == [] then {}
    else IdsOf(items[..|items| - 1]) + if Counts(items[|items| - 1]) then {items[|items| - 1].id} else {}
  }

  /** The ids a snapshot has something to show for. */
  function ShownIds(items: Snapshot): set<Id> {
    if items == [] then {}
    else ShownIds(items[..|items| - 1]) + if Shows(items[|items| - 1]) then {items[|items| - 1].id} else {}
  }

  /** The entities after every item was processed: what can be shown is registered with its latest payload. */
  function Processed(entities: map<Id, int>, items: Snapshot): map<Id, int> {
    if items == [] then entities
    else
      var last := items[|items| - 1];
      var earlier := Processed(entities, items[..|items| - 1]);
      if Shows(last) then earlier[last.id := last.payload.value] else earlier
  }

  /** The unconditional sweep: only what the snapshot asks for stays. */
  function Swept(entities: map<Id, int>, seen: set<Id>): map<Id, int> {
    map id | id in entities && id in seen :: entities[id]
  }

  /** What a drain is for: nothing stays that the snapshot does not ask for. */
  function Reconciled(entities: map<Id, int>, items: Snapshot): map<Id, int> {
    Swept(Processed(entities, items), IdsOf(items))
  }

  /** What a drain does: it sweeps unless the sizes suggest that there is nothing to sweep. */
  function Guarded(entities: map<Id, int>, items: Snapshot): map<Id, int> {
    if |Processed(entities, items)| != |entities| || |IdsOf(items)| != |entities| then Reconciled(entities, items)
    else Processed(entities, items)
  }

  lemma OneMoreItem(entities: map<Id, int>, items: Snapshot, i: nat)
    requires i < |items|
    ensures var item := items[i];
      && Processed(entities, items[..i + 1])
        == (if Shows(item) then Processed(entities, items[..i])[item.id := item.payload.value] else Processed(entities, items[..i]))
      && IdsOf(items[..i + 1]) == IdsOf(items[..i]) + if Counts(item) then {item.id} else {}
  {
    assert items[..i + 1][..i] == items[..i];
  }

  lemma {:induction false} ProcessedKeys(entities: map<Id, int>, items: Snapshot)
    ensures Processed(entities, items).Keys == entities.Keys + ShownIds(items)
  {
    if items != [] { ProcessedKeys(entities, items[..|items| - 1]); }
  }

  lemma {:induction false} ShownAreAskedFor(items: Snapshot)
    ensures ShownIds(items) <= IdsOf(items)
  {
    if items != [] { ShownAreAskedFor(items[..|items| - 1]); }
  }

  lemma {:induction false} ProcessedForgets(a: map<Id, int>, b: map<Id, int>, items: Snapshot, id: Id)
    requires id in ShownIds(items)
    ensures id in Processed(a, items) && id in Processed(b, items) && Processed(a, items)[id] == Processed(b, items)[id]
  {
    if items != [] {
      var last := items[|items| - 1];
      if !(Shows(last) && last.id == id) {
        ProcessedForgets(a, b, items[..|items| - 1], id);
      }
    }
  }

  lemma SameSizeSubset(a: set<Id>, b: set<Id>)
    requires a <= b && |a| == |b|
    ensures a == b
  {
    var rest := b - a;
    assert b == a + rest && |b| == |a| + |rest|;
  }

  lemma SameSizeAddsNothing(entities: map<Id, int>, items: Snapshot)
    ensures |Processed(entities, items)| == |entities| <==> ShownIds(items) <= entities.Keys
  {
    ProcessedKeys(entities, items);
    var after := Processed(entities, items);
    assert |after.Keys| == |after| && |entities.Keys| == |entities|;
    if ShownIds(items) <= entities.Keys {
      assert after.Keys == entities.Keys;
    } else if |after| == |entities| {
      SameSizeSubset(entities.Keys, after.Keys);
    }
  }

  /** Every id a snapshot asks for can be shown. */
  predicate AllShow(items: Snapshot) { IdsOf(items) == ShownIds(items) }

  /**
   The guard misses what it should sweep: processing adds nothing, the snapshot asks for as many ids as there are
   entities, and yet some entity is none of them.
   */
  ghost predicate GuardMisses(entities: map<Id, int>, items: Snapshot) {
    ShownIds(items) <= entities.Keys && |IdsOf(items)| == |entities| && exists id :: id in entities && id !in IdsOf(items)
  }

  lemma MissedIdsStay(entities: map<Id, int>, items: Snapshot)
    requires GuardMisses(entities, items)
    ensures Guarded(entities, items) == Processed(entities, items) != Reconciled(entities, items)
  {
    ProcessedKeys(entities, items);
    SameSizeAddsNothing(entities, items);
    var id :| id in entities && id !in IdsOf(items);
    assert id in Processed(entities, items) && id !in Reconciled(entities, items);
  }

  lemma NothingToSweep(entities: map<Id, int>, items: Snapshot)
    requires ShownIds(items) <= entities.Keys && forall id :: id in entities ==> id in IdsOf(items)
    ensures Processed(entities, items) == Reconciled(entities, items)
  {
    ProcessedKeys(entities, items);
  }

  /** The guarded drain differs from the unconditional sweep exactly when the guard misses. */
  lemma GuardMissesExactly(entities: map<Id, int>, items: Snapshot)
    ensures Guarded(entities, items) != Reconciled(entities, items) <==> GuardMisses(entities, items)
  {
    SameSizeAddsNothing(entities, items);
    if GuardMisses(entities, items) {
      MissedIdsStay(entities, items);
    } else if ShownIds(items) <= entities.Keys && |IdsOf(items)| == |entities| {
      NothingToSweep(entities, items);
    }
  }

  /** When everything asked for can be shown, the guard never misses: skipping the sweep is sweeping. */
  lemma SkippingIsSweeping(entities: map<Id, int>, items: Snapshot)
    requires AllShow(items)
    ensures !GuardMisses(entities, items) && Guarded(entities, items) == Reconciled(entities, items)
  {
    if GuardMisses(entities, items) { SameSizeSubset(IdsOf(items), entities.Keys); }
    GuardMissesExactly(entities, items);
  }

  /** A drained layer holds nothing its snapshot does not ask for exactly when the guard did not miss. */
  lemma NothingStaleExactly(entities: map<Id, int>, items: Snapshot)
    ensures Guarded(entities, items).Keys <= IdsOf(items) <==> !GuardMisses(entities, items)
  {
    GuardMissesExactly(entities, items);
    ProcessedKeys(entities, items);
    if GuardMisses(entities, items) {
      var id :| id in entities && id !in IdsOf(items);
      SameSizeAddsNothing(entities, items);
      assert id in Guarded(entities, items).Keys;
    }
  }

  /** Whatever was there before, a layer reconciled with a snapshot it can show holds its ids with their latest payloads. */
  lemma ReconciledIsTheSnapshot(entities: map<Id, int>, items: Snapshot)
    requires AllShow(items)
    ensures Guarded(entities, items) == Reconciled(map[], items) && Reconciled(map[], items).Keys == IdsOf(items)
  {
    SkippingIsSweeping(entities, items);
    ProcessedKeys(entities, items);
    ProcessedKeys(map[], items);
    forall id | id in IdsOf(items) ensures Processed(entities, items)[id] == Processed(map[], items)[id] {
      ProcessedForgets(entities, map[], items, id);
    }
  }

  // ----- the state of a layer -----

  datatype Layer = Layer(entities: map<Id, int>, pending: Snapshot, hasPending: bool, scheduled: bool, destroyed: bool)

  const NEW: Layer := Layer(map[], [], false, false, false)

  function Drained(l: Layer): Layer {
    if !l.hasPending || l.destroyed then l
    else l.(entities := Guarded(l.entities, l.pending), pending := [], hasPending := false)
  }

  /** What happens to a layer: a snapshot is enqueued, a frame is rendered, the layer is destroyed. */
  datatype LayerEvent = Enqueue(items: Snapshot) | Frame | Destroy

  function After1(l: Layer, e: LayerEvent, hasFrames: bool): Layer {
    match e
    case Enqueue(items) =>
      if l.destroyed then l
      else
        var l1 := l.(pending := items, hasPending := true);
        if hasFrames then l1.(scheduled := true) else Drained(l1)
    case Frame => if l.scheduled then Drained(l.(scheduled := false)) else l
    case Destroy => Layer(map[], [], false, if hasFrames then false else l.scheduled, true)
  }

  function After(l: Layer, events: seq<LayerEvent>, hasFrames: bool): Layer {
    if events == [] then l else After1(After(l, events[..|events| - 1], hasFrames), events[|events| - 1], hasFrames)
  }

  /** The last snapshot enqueued, if there was one. */
  function LastSnapshot(events: seq<LayerEvent>): Option<Snapshot> {
    if events == [] then None
    else
      var last := events[|events| - 1];
      if last.Enqueue? then Some(last.items) else LastSnapshot(events[..|events| - 1])
  }

  /** Nothing is pending without a frame to drain it, and what is pending is the last snapshot; else it is drained. */
  lemma {:induction false} PendingIsTheLastSnapshot(events: seq<LayerEvent>, hasFrames: bool)
    requires Destroy !in events
    ensures var l := After(NEW, events, hasFrames);
      && !l.destroyed
      && (l.hasPending ==> l.scheduled && hasFrames && LastSnapshot(events) == Some(l.pending))
      && (!l.hasPending && LastSnapshot(events).Some? && AllShow(LastSnapshot(events).value) ==>
            l.entities == Reconciled(map[], LastSnapshot(events).value))
  {
    if events != [] {
      var front, last := events[..|events| - 1], events[|events| - 1];
      assert Destroy !in front && last in events;
      PendingIsTheLastSnapshot(front, hasFrames);
      var l := After(NEW, front, hasFrames);
      match last
      case Enqueue(items) => if AllShow(items) { ReconciledIsTheSnapshot(l.entities, items); }
      case Frame => if l.hasPending && AllShow(l.pending) { ReconciledIsTheSnapshot(l.entities, l.pending); }
    }
  }

  lemma FrameDrains(l: Layer, hasFrames: bool)
    requires l.hasPending ==> l.scheduled && !l.destroyed
    ensures !After1(l, Frame, hasFrames).hasPending
  {
  }

  /**
   However many snapshots were coalesced, after the next frame the layer holds exactly the last one, if all of it can be
   shown: its ids and its latest payloads, and nothing of what it held before.
   */
  lemma FramesShowTheLastSnapshot(events: seq<LayerEvent>, hasFrames: bool)
    requires Destroy !in events && LastSnapshot(events).Some? && AllShow(LastSnapshot(events).value)
    ensures var l := After(NEW, events + [Frame], hasFrames);
      var items := LastSnapshot(events).value;
      l.entities.Keys == IdsOf(items) && l.entities == Reconciled(map[], items)
  {
    var all := events + [Frame];
    assert all[..|events|] == events;
    PendingIsTheLastSnapshot(events, hasFrames);
    FrameDrains(After(NEW, events, hasFrames), hasFrames);
    PendingIsTheLastSnapshot(all, hasFrames);
    ReconciledIsTheSnapshot(map[], LastSnapshot(events).value);
  }

  /** A destroyed layer stays empty, whatever is enqueued afterwards. */
  lemma {:induction false} DestroyedLayersStayEmpty(l: Layer, events: seq<LayerEvent>, hasFrames: bool)
    requires l.destroyed && l.entities == map[]
    ensures After(l, events, hasFrames).destroyed && After(l, events, hasFrames).entities == map[]
  {
    if events != [] { DestroyedLayersStayEmpty(l, events[..|events| - 1], hasFrames); }
  }

  /** What a frame leaves is free of what the pending snapshot does not ask for, exactly when the guard does not miss. */
  lemma FramesLeaveNothingStale(l: Layer, hasFrames: bool)
    requires l.hasPending && l.scheduled && !l.destroyed
    ensures After1(l, Frame, hasFrames).entities.Keys <= IdsOf(l.pending) <==> !GuardMisses(l.entities, l.pending)
  {
    NothingStaleExactly(l.entities, l.pending);
  }

  /** One thing is shown, then another that cannot be: two snapshots, each drained by its frame. */
  function ReplacedByUnshown(a: Id, b: Id, payload: int): seq<LayerEvent> {
    [Enqueue([Present(a, Some(payload))]), Frame, Enqueue([Present(b, None)]), Frame]
  }

  lemma SingleSnapshot(item: Item)
    requires Counts(item)
    ensures IdsOf([item]) == {item.id} && ShownIds([item]) == if Shows(item) then {item.id} else {}
    ensures forall entities: map<Id, int> :: Processed(entities, [item]) == if Shows(item) then entities[item.id := item.payload.value] else entities
  {
    assert [item][..0] == [];
  }

  lemma FourEvents(events: seq<LayerEvent>, hasFrames: bool)
    requires |events| == 4
    ensures After(NEW, events, hasFrames)
      == After1(After1(After1(After1(NEW, events[0], hasFrames), events[1], hasFrames), events[2], hasFrames), events[3], hasFrames)
  {
    var e3 := events[..3];
    var e2 := e3[..2];
    var e1 := e2[..1];
    assert e1[..0] == [];
    assert After(NEW, e1, hasFrames) == After1(NEW, events[0], hasFrames);
    assert After(NEW, e2, hasFrames) == After1(After(NEW, e1, hasFrames), events[1], hasFrames);
    assert After(NEW, e3, hasFrames) == After1(After(NEW, e2, hasFrames), events[2], hasFrames);
  }

  /** The stale entity stays on the globe: the layer shows a, though the last snapshot asks for b alone. */
  lemma UnshownItemsDefeatTheGuard(a: Id, b: Id, payload: int)
    requires a != b && a != "" && b != ""
    ensures var l := After(NEW, ReplacedByUnshown(a, b, payload), true);
      l.entities == map[a := payload] && LastSnapshot(ReplacedByUnshown(a, b, payload)) == Some([Present(b, None)])
    ensures GuardMisses(map[a := payload], [Present(b, None)])
  {
    var first, second := Present(a, Some(payload)), Present(b, None);
    var events := ReplacedByUnshown(a, b, payload);
    FourEvents(events, true);
    SingleSnapshot(first);
    SingleSnapshot(second);
    assert Guarded(map[], [first]) == map[a := payload];
    assert Guarded(map[a := payload], [second]) == map[a := payload];
    assert events[..3][2] == Enqueue([second]);
    assert a in map[a := payload] && a !in IdsOf([second]);
  }

  // ----- the object -----

  class BaseLayerController {
    const hasFrames: bool
    var entityMap: map<Id, int>
    var pendingUpdates: Snapshot
    var hasPendingSnapshot: bool
    var frameScheduled: bool
    var isDestroyed: bool

    ghost function State(): Layer
      reads this
    {
      Layer(entityMap, pendingUpdates, hasPendingSnapshot, frameScheduled, isDestroyed)
    }

    constructor (hasFrames: bool)
      ensures State() == NEW && this.hasFrames == hasFrames
    {
      this.hasFrames := hasFrames;
      entityMap, pendingUpdates, hasPendingSnapshot, frameScheduled, isDestroyed := map[], [], false, false, false;
    }

    method EnqueueUpdates(items: Snapshot)
      modifies this
      ensures State() == After1(old(State()), Enqueue(items), hasFrames)
    {
      if isDestroyed {
        return;
      }
      pendingUpdates := items;
      hasPendingSnapshot := true;
      ScheduleDrain();
    }

    method ScheduleDrain()
      modifies this
      ensures State() == if hasFrames then old(State()).(scheduled := true) else Drained(old(State()))
    {
      if !hasFrames {
        DrainQueue();
        return;
      }
      frameScheduled := true;
    }

    /** The frame that was requested. */
    method OnFrame()
      modifies this
      ensures State() == After1(old(State()), Frame, hasFrames)
    {
      if frameScheduled {
        frameScheduled := false;
        DrainQueue();
      }
    }

    /** `drainQueue`: processes every item, then sweeps unless the sizes say that there is nothing to remove. */
    method DrainQueue()
      modifies this
      ensures State() == Drained(old(State()))
    {
      if !hasPendingSnapshot || isDestroyed {
        return;
      }
      var updates := pendingUpdates;
      pendingUpdates := [];
      hasPendingSnapshot := false;
      var initialSize := |entityMap|;
      var seenIds: set<Id> := {};
      for i := 0 to |updates|
        invariant State() == old(State()).(entities := entityMap, pending := [], hasPending := false)
        invariant entityMap == Processed(old(entityMap), updates[..i]) && seenIds == IdsOf(updates[..i])
      {
        var item := updates[i];
        OneMoreItem(old(entityMap), updates, i);
        if Counts(item) {
          seenIds := seenIds + {item.id};
          ProcessEntity(item);
        }
      }
      assert updates[..|updates|] == updates;
      if |entityMap| != initialSize || |seenIds| != initialSize {
        Sweep(seenIds);
      }
    }

    /** `processEntity` as most layers have it: without a position nothing is registered or moved. */
    method ProcessEntity(item: Item)
      requires Counts(item)
      modifies this`entityMap
      ensures entityMap == if Shows(item) then old(entityMap)[item.id := item.payload.value] else old(entityMap)
    {
      match item.payload {
        case None =>
        case Some(payload) => entityMap := entityMap[item.id := payload];
      }
    }

    /** The reconciliation loop. */
    method Sweep(seenIds: set<Id>)
      modifies this`entityMap
      ensures entityMap == Swept(old(entityMap), seenIds)
    {
      var remaining := entityMap.Keys;
      while remaining != {}
        invariant remaining <= old(entityMap).Keys
        invariant entityMap == map id | id in old(entityMap) && (id in remaining || id in seenIds) :: old(entityMap)[id]
        decreases |remaining|
      {
        var id :| id in remaining;
        remaining := remaining - {id};
        if id !in seenIds {
          entityMap := entityMap - {id};
        }
      }
    }

    method DestroyLayer()
      modifies this
      ensures State() == After1(old(State()), Destroy, hasFrames)
    {
      isDestroyed := true;
      if frameScheduled && hasFrames {
        frameScheduled := false;
      }
      entityMap := map[];
      pendingUpdates := [];
      hasPendingSnapshot := false;
    }
  }
}
