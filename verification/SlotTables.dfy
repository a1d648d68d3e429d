/** A table of slots that keep an id each: how ids claim slots, and when all of them find one. */
module SlotTables {
  import opened Common
  import opened Configuration

  /** `snprintf` into a fixed buffer: cut to its capacity. */
  function CopyText(text: Text): Text {
    if |text| < TEXT_SIZE then text else text[..TEXT_SIZE - 1]
  }

  /** `used` flags the slots that hold an id; `inUse` flags those the configuration under way has claimed. */
  datatype Table = Table(used: seq<bool>, ids: seq<Text>, inUse: seq<bool>)

  predicate Shaped(t: Table) {
    |t.used| == |t.ids| == |t.inUse|
  }

  // ----- Lookups -----

  function SlotFrom(used: seq<bool>, ids: seq<Text>, id: Text, from: nat): (slot: Option<nat>)
    requires |used| == |ids| && from <= |used|
    ensures slot.Some? ==> from <= slot.value < |used| && used[slot.value] && ids[slot.value] == id
    ensures slot.None? ==> forall i | from <= i < |used| :: !(used[i] && ids[i] == id)
    decreases |used| - from
  {
    if from == |used| then None else if used[from] && ids[from] == id then Some(from) else SlotFrom(used, ids, id, from + 1)
  }

  function SlotOf(used: seq<bool>, ids: seq<Text>, id: Text): (slot: Option<nat>)
    requires |used| == |ids|
    ensures slot.Some? ==> slot.value < |used| && used[slot.value] && ids[slot.value] == id
    ensures slot.None? ==> forall i | 0 <= i < |used| :: !(used[i] && ids[i] == id)
  {
    SlotFrom(used, ids, id, 0)
  }

  function UnusedFrom(used: seq<bool>, from: nat): (slot: Option<nat>)
    requires from <= |used|
    ensures slot.Some? ==> from <= slot.value < |used| && !used[slot.value]
    ensures slot.None? ==> forall i | from <= i < |used| :: used[i]
    decreases |used| - from
  {
    if from == |used| then None else if !used[from] then Some(from) else UnusedFrom(used, from + 1)
  }

  function UnusedSlot(used: seq<bool>): (slot: Option<nat>)
    ensures slot.Some? ==> slot.value < |used| && !used[slot.value]
    ensures slot.None? ==> forall i | 0 <= i < |used| :: used[i]
  {
    UnusedFrom(used, 0)
  }

  /** The slot an id keeps, or else the first that is free. */
  function Claim(used: seq<bool>, ids: seq<Text>, id: Text): (slot: Option<nat>)
    requires |used| == |ids|
    ensures slot.Some? ==> slot.value < |used| && (used[slot.value] ==> ids[slot.value] == id)
  {
    match SlotOf(used, ids, id)
    case Some(slot) => Some(slot)
    case None => UnusedSlot(used)
  }

  function Take(t: Table, slot: nat, id: Text): (after: Table)
    requires Shaped(t) && slot < |t.used|
    ensures Shaped(after) && |after.used| == |t.used|
  {
    Table(t.used[slot := true], t.ids[slot := CopyText(id)], t.inUse[slot := true])
  }

  /** The ids claim slots one after the other, up to the first that finds none. */
  function PlaceAll(t: Table, wanted: seq<Text>): (r: (Table, seq<nat>))
    requires Shaped(t)
    ensures Shaped(r.0) && |r.0.used| == |t.used| && |r.1| <= |wanted|
    ensures forall k | 0 <= k < |r.1| :: r.1[k] < |t.used|
    decreases |wanted|
  {
    if wanted == [] then (t, [])
    else
      match Claim(t.used, t.ids, wanted[0])
      case None => (t, [])
      case Some(slot) =>
        var (after, slots) := PlaceAll(Take(t, slot, wanted[0]), wanted[1..]);
        (after, [slot] + slots)
  }

  // ----- Room -----

  /** No two slots in use hold the same id. */
  predicate Coherent(used: seq<bool>, ids: seq<Text>)
    requires |used| == |ids|
  {
    forall i, j | 0 <= i < j < |used| && used[i] && used[j] :: ids[i] != ids[j]
  }

  function UsedIds(used: seq<bool>, ids: seq<Text>): set<Text>
    requires |used| == |ids|
  {
    set i | 0 <= i < |used| && used[i] :: ids[i]
  }

  predicate Distinct(wanted: seq<Text>) {
    forall i, j | 0 <= i < j < |wanted| :: wanted[i] != wanted[j]
  }

  predicate Short(wanted: seq<Text>) {
    forall i | 0 <= i < |wanted| :: |wanted[i]| < TEXT_SIZE
  }

  function IdsOf(wanted: seq<Text>): set<Text> {
    set i | 0 <= i < |wanted| :: wanted[i]
  }

  /** The ids in use and the ids wanted fit into the table together. */
  predicate Room(used: seq<bool>, ids: seq<Text>, wanted: seq<Text>)
    requires |used| == |ids|
  {
    |UsedIds(used, ids) + IdsOf(wanted)| <= |used|
  }

  lemma UsedStep(used: seq<bool>, ids: seq<Text>, n: nat)
    requires |used| == |ids| == n + 1
    ensures UsedIds(used, ids) == UsedIds(used[..n], ids[..n]) + if used[n] then {ids[n]} else {}
    ensures Coherent(used, ids) ==> Coherent(used[..n], ids[..n])
    ensures Coherent(used, ids) && used[n] ==> ids[n] !in UsedIds(used[..n], ids[..n])
  {
    var u, d := used[..n], ids[..n];
    assert forall i | 0 <= i < n :: u[i] == used[i] && d[i] == ids[i];
    forall x ensures x in UsedIds(used, ids) <==> x in UsedIds(u, d) + if used[n] then {ids[n]} else {} {
      if x in UsedIds(used, ids) {
        var i :| 0 <= i < |used| && used[i] && ids[i] == x;
        if i < n { assert u[i] && d[i] == x; }
      }
    }
  }

  predicate Full(used: seq<bool>) {
    forall i | 0 <= i < |used| :: used[i]
  }

  lemma FullStep(used: seq<bool>, n: nat)
    requires |used| == n + 1
    ensures Full(used) <==> Full(used[..n]) && used[n]
  {
    assert Full(used) ==> forall i | 0 <= i < n :: used[..n][i];
    assert Full(used[..n]) ==> forall i | 0 <= i < n :: used[..n][i] == used[i];
  }

  lemma {:induction false} UsedCount(used: seq<bool>, ids: seq<Text>)
    requires |used| == |ids| && Coherent(used, ids)
    ensures |UsedIds(used, ids)| <= |used|
    ensures |UsedIds(used, ids)| == |used| <==> Full(used)
    decreases |used|
  {
    hide UsedIds, Coherent, Full;
    if |used| == 0 {
      NothingUsed(used, ids);
    } else {
      var n := |used| - 1;
      UsedStep(used, ids, n);
      FullStep(used, n);
      UsedCount(used[..n], ids[..n]);
    }
  }

  lemma NothingUsed(used: seq<bool>, ids: seq<Text>)
    requires |used| == |ids| == 0
    ensures UsedIds(used, ids) == {} && Full(used)
  {
  }

  /** An id that holds no slot finds a free one exactly when the table is not full. */
  lemma ClaimFinds(used: seq<bool>, ids: seq<Text>, id: Text)
    requires |used| == |ids| && Coherent(used, ids)
    ensures Claim(used, ids, id).Some? <==> id in UsedIds(used, ids) || |UsedIds(used, ids)| < |used|
  {
    UsedCount(used, ids);
  }

  /** What taking a claimed slot does: the id is added, nothing that is in use is overwritten by another id. */
  lemma TakeClaimed(t: Table, id: Text)
    requires Shaped(t) && Coherent(t.used, t.ids) && |id| < TEXT_SIZE && Claim(t.used, t.ids, id).Some?
    ensures var slot := Claim(t.used, t.ids, id).value; var after := Take(t, slot, id);
            && Coherent(after.used, after.ids) && UsedIds(after.used, after.ids) == UsedIds(t.used, t.ids) + {id}
            && (forall i | 0 <= i < |t.used| && t.used[i] :: after.used[i] && after.ids[i] == t.ids[i])
            && after.used[slot] && after.ids[slot] == id
  {
    var slot := Claim(t.used, t.ids, id).value;
    var after := Take(t, slot, id);
    assert forall i | 0 <= i < |t.used| && i != slot :: after.used[i] == t.used[i] && after.ids[i] == t.ids[i];
    forall x ensures x in UsedIds(after.used, after.ids) <==> x in UsedIds(t.used, t.ids) + {id} {
      if x in UsedIds(t.used, t.ids) {
        var i :| 0 <= i < |t.used| && t.used[i] && t.ids[i] == x;
        assert after.used[i] && after.ids[i] == x;
      } else if x == id {
        assert after.used[slot] && after.ids[slot] == x;
      }
    }
  }

  lemma RoomStep(used: seq<bool>, ids: seq<Text>, after: seq<bool>, afterIds: seq<Text>, wanted: seq<Text>)
    requires |used| == |ids| == |after| == |afterIds| && wanted != []
    requires UsedIds(after, afterIds) == UsedIds(used, ids) + {wanted[0]}
    ensures UsedIds(after, afterIds) + IdsOf(wanted[1..]) == UsedIds(used, ids) + IdsOf(wanted)
    ensures Room(after, afterIds, wanted[1..]) <==> Room(used, ids, wanted)
  {
    assert IdsOf(wanted) == {wanted[0]} + IdsOf(wanted[1..]) by {
      forall x ensures x in IdsOf(wanted) <==> x in {wanted[0]} + IdsOf(wanted[1..]) {
        if x in IdsOf(wanted) {
          var i :| 0 <= i < |wanted| && wanted[i] == x;
          if i > 0 { assert wanted[1..][i - 1] == x; }
        }
        if x in IdsOf(wanted[1..]) {
          var i :| 0 <= i < |wanted[1..]| && wanted[1..][i] == x;
          assert wanted[i + 1] == x;
        }
      }
    }
  }

  /** Where `PlaceAll` leaves a table that had room: every wanted id has its slot, and no id in use was overwritten. */
  predicate Placed(t: Table, wanted: seq<Text>, after: Table, slots: seq<nat>)
    requires Shaped(t) && Shaped(after) && |after.used| == |t.used|
  {
    && |slots| == |wanted| && (forall k | 0 <= k < |slots| :: slots[k] < |t.used|)
    && Coherent(after.used, after.ids)
    && (forall k | 0 <= k < |wanted| :: after.used[slots[k]] && after.ids[slots[k]] == wanted[k])
    && (forall i | 0 <= i < |t.used| && t.used[i] :: after.used[i] && after.ids[i] == t.ids[i])
    && (forall i | 0 <= i < |t.used| :: after.inUse[i] <==> t.inUse[i] || i in slots)
    && (forall i | 0 <= i < |t.used| :: after.used[i] <==> t.used[i] || i in slots)
  }

  lemma {:induction false} PlaceAllPlaces(t: Table, wanted: seq<Text>)
    requires Shaped(t) && Coherent(t.used, t.ids) && Distinct(wanted) && Short(wanted) && Room(t.used, t.ids, wanted)
    ensures var (after, slots) := PlaceAll(t, wanted); Placed(t, wanted, after, slots)
    decreases |wanted|
  {
    hide Claim, Take, Room, UsedIds, IdsOf;
    if wanted != [] {
      RoomForFirst(t, wanted);
      var slot := Claim(t.used, t.ids, wanted[0]).value;
      var first := Take(t, slot, wanted[0]);
      TakeClaimed(t, wanted[0]);
      TakeFlags(t, slot, wanted[0]);
      RoomStep(t.used, t.ids, first.used, first.ids, wanted);
      PlaceAllPlaces(first, wanted[1..]);
      var (after, slots) := PlaceAll(first, wanted[1..]);
      PlacedStep(t, first, after, slot, slots, wanted);
    }
  }

  lemma RoomForFirst(t: Table, wanted: seq<Text>)
    requires Shaped(t) && Coherent(t.used, t.ids) && wanted != [] && Room(t.used, t.ids, wanted)
    ensures Claim(t.used, t.ids, wanted[0]).Some?
  {
    hide Claim;
    ClaimFinds(t.used, t.ids, wanted[0]);
    var in_use, all := UsedIds(t.used, t.ids), UsedIds(t.used, t.ids) + IdsOf(wanted);
    assert wanted[0] in IdsOf(wanted);
    if wanted[0] !in in_use {
      assert in_use < all;
      SmallerSet(in_use, all);
    }
  }

  lemma SmallerSet<T>(a: set<T>, b: set<T>)
    requires a < b
    ensures |a| < |b|
  {
    assert |b| == |a| + |b - a| by { assert b == a + (b - a); }
  }

  lemma TakeFlags(t: Table, slot: nat, id: Text)
    requires Shaped(t) && slot < |t.used|
    ensures var after := Take(t, slot, id);
            && (forall i | 0 <= i < |t.used| :: after.inUse[i] <==> t.inUse[i] || i == slot)
            && (forall i | 0 <= i < |t.used| :: after.used[i] <==> t.used[i] || i == slot)
  {
  }

  lemma PlacedStep(t: Table, first: Table, after: Table, slot: nat, slots: seq<nat>, wanted: seq<Text>)
    requires Shaped(t) && Shaped(first) && Shaped(after) && |after.used| == |first.used| == |t.used| && wanted != []
    requires Placed(first, wanted[1..], after, slots) && slot < |t.used|
    requires first.used[slot] && first.ids[slot] == wanted[0]
    requires forall i | 0 <= i < |t.used| && t.used[i] :: first.used[i] && first.ids[i] == t.ids[i]
    requires forall i | 0 <= i < |t.used| :: first.inUse[i] <==> t.inUse[i] || i == slot
    requires forall i | 0 <= i < |t.used| :: first.used[i] <==> t.used[i] || i == slot
    ensures Placed(t, wanted, after, [slot] + slots)
  {
    var all := [slot] + slots;
    forall k | 0 <= k < |wanted| ensures after.used[all[k]] && after.ids[all[k]] == wanted[k] {
      if k > 0 { assert all[k] == slots[k - 1] && wanted[k] == wanted[1..][k - 1]; }
    }
    forall i | 0 <= i < |t.used| ensures i in all <==> i == slot || i in slots {
    }
  }

  /** Without room some wanted id ends up with no slot. */
  lemma {:induction false} PlaceAllStuck(t: Table, wanted: seq<Text>)
    requires Shaped(t) && Coherent(t.used, t.ids) && Short(wanted) && !Room(t.used, t.ids, wanted)
    ensures var (after, slots) := PlaceAll(t, wanted);
            |slots| < |wanted| && SlotOf(after.used, after.ids, wanted[|slots|]) == None
    decreases |wanted|
  {
    hide Claim, Take, Room, UsedIds, IdsOf;
    if wanted == [] {
      UsedCount(t.used, t.ids);
      NoRoomMeansWanted(t.used, t.ids);
    } else if Claim(t.used, t.ids, wanted[0]).Some? {
      var slot := Claim(t.used, t.ids, wanted[0]).value;
      var first := Take(t, slot, wanted[0]);
      TakeClaimed(t, wanted[0]);
      RoomStep(t.used, t.ids, first.used, first.ids, wanted);
      PlaceAllStuck(first, wanted[1..]);
      var (after, slots) := PlaceAll(first, wanted[1..]);
      assert wanted[|slots| + 1] == wanted[1..][|slots|];
    } else {
      UnclaimedHasNoSlot(t.used, t.ids, wanted[0]);
    }
  }

  lemma NoRoomMeansWanted(used: seq<bool>, ids: seq<Text>)
    requires |used| == |ids| && |UsedIds(used, ids)| <= |used|
    ensures Room(used, ids, [])
  {
    assert UsedIds(used, ids) + IdsOf([]) == UsedIds(used, ids);
  }

  lemma UnclaimedHasNoSlot(used: seq<bool>, ids: seq<Text>, id: Text)
    requires |used| == |ids|
    ensures Claim(used, ids, id).None? ==> SlotOf(used, ids, id).None?
  {
  }

  /** In a coherent table an id has at most one slot. */
  lemma SlotIsUnique(used: seq<bool>, ids: seq<Text>, slot: nat)
    requires |used| == |ids| && Coherent(used, ids) && slot < |used| && used[slot]
    ensures SlotOf(used, ids, ids[slot]) == Some(slot)
  {
  }
}
