/** Ordered dictionaries with a byte count: slots from the least to the most recently used. */
module LruOrder {
  import opened Wrappers

  datatype Slot<+E> = Slot(id: string, size: nat, expires: real, owner: Option<string>, value: E)

  predicate Unique<E>(slots: seq<Slot<E>>) {
    forall i, j :: 0 <= i < j < |slots| ==> slots[i].id != slots[j].id
  }

  /** The bytes all slots account for. */
  function Total<E>(slots: seq<Slot<E>>): nat {
    if slots == [] then 0 else Total(slots[..|slots| - 1]) + slots[|slots| - 1].size
  }

  /** The slots that are not in `gone`, in their order. */
  function Keep<E>(slots: seq<Slot<E>>, gone: set<string>): seq<Slot<E>> {
    if slots == [] then [] else
      var front, last := Keep(slots[..|slots| - 1], gone), slots[|slots| - 1];
      if last.id in gone then front else front + [last]
  }

  /** The slots that have not expired. */
  function Alive<E>(slots: seq<Slot<E>>, now: real): seq<Slot<E>> {
    if slots == [] then [] else
      var front, last := Alive(slots[..|slots| - 1], now), slots[|slots| - 1];
      if now >= last.expires then front else front + [last]
  }

  function Expired<E>(slots: seq<Slot<E>>, now: real): seq<string> {
    if slots == [] then [] else
      var front, last := Expired(slots[..|slots| - 1], now), slots[|slots| - 1];
      if now >= last.expires then front + [last.id] else front
  }

  predicate Holds<E>(slots: seq<Slot<E>>, id: string) {
    exists i :: 0 <= i < |slots| && slots[i].id == id
  }

  function Find<E>(slots: seq<Slot<E>>, id: string): (slot: Slot<E>)
    requires Holds(slots, id)
    ensures slot in slots && slot.id == id
    decreases slots, id
  {
    var last := slots[|slots| - 1];
    if last.id == id then last else
      assert forall i :: 0 <= i < |slots| && slots[i].id == id ==> slots[..|slots| - 1][i].id == id;
      Find(slots[..|slots| - 1], id)
  }

  /** `move_to_end`. */
  function Touched<E>(slots: seq<Slot<E>>, id: string): seq<Slot<E>>
    requires Holds(slots, id)
  {
    Keep(slots, {id}) + [Find(slots, id)]
  }

  /** A slot is kept unless its id is gone. */
  lemma {:induction false} Kept<E>(slots: seq<Slot<E>>, gone: set<string>, s: Slot<E>)
    ensures s in Keep(slots, gone) <==> s in slots && s.id !in gone
  {
    if slots != [] {
      var front, last := slots[..|slots| - 1], slots[|slots| - 1];
      Kept(front, gone, s);
      assert slots == front + [last];
    }
  }

  lemma {:induction false} KeptUnique<E>(slots: seq<Slot<E>>, gone: set<string>)
    requires Unique(slots)
    ensures Unique(Keep(slots, gone)) && |Keep(slots, gone)| <= |slots|
  {
    if slots != [] {
      var front, last := slots[..|slots| - 1], slots[|slots| - 1];
      KeptUnique(front, gone);
      var kept := Keep(front, gone);
      forall i | 0 <= i < |kept| ensures kept[i].id != last.id {
        Kept(front, gone, kept[i]);
        InFront(slots, kept[i]);
      }
    }
  }

  lemma {:induction false} LastOnce<E>(slots: seq<Slot<E>>)
    requires slots != [] && Unique(slots)
    ensures !Holds(slots[..|slots| - 1], slots[|slots| - 1].id)
  {
    var front := slots[..|slots| - 1];
    forall i | 0 <= i < |front| ensures front[i].id != slots[|slots| - 1].id {
      assert front[i] == slots[i];
    }
  }

  lemma {:induction false} InFront<E>(slots: seq<Slot<E>>, s: Slot<E>)
    requires slots != [] && Unique(slots) && s in slots[..|slots| - 1]
    ensures s.id != slots[|slots| - 1].id
  {
    var i :| 0 <= i < |slots| - 1 && slots[i] == s;
  }

  lemma {:induction false} HoldsById<E>(slots: seq<Slot<E>>, id: string)
    ensures Holds(slots, id) <==> exists s :: s in slots && s.id == id
  {
    if s :| s in slots && s.id == id {
      var i :| 0 <= i < |slots| && slots[i] == s;
    }
  }

  lemma {:induction false} FindUnique<E>(slots: seq<Slot<E>>, s: Slot<E>)
    requires Unique(slots) && s in slots
    ensures Holds(slots, s.id) && Find(slots, s.id) == s
  {
    var i :| 0 <= i < |slots| && slots[i] == s;
    var j :| 0 <= j < |slots| && slots[j] == Find(slots, s.id);
  }

  lemma {:induction false} KeepNothing<E>(slots: seq<Slot<E>>, gone: set<string>)
    requires forall s :: s in slots ==> s.id !in gone
    ensures Keep(slots, gone) == slots
  {
    if slots != [] {
      var front := slots[..|slots| - 1];
      KeepNothing(front, gone);
      assert slots == front + [slots[|slots| - 1]];
    }
  }

  /** Removing one slot takes its bytes off the total. */
  lemma {:induction false} TotalWithout<E>(slots: seq<Slot<E>>, id: string)
    requires Unique(slots) && Holds(slots, id)
    ensures Total(Keep(slots, {id})) + Find(slots, id).size == Total(slots)
    ensures |Keep(slots, {id})| + 1 == |slots|
  {
    var front, last := slots[..|slots| - 1], slots[|slots| - 1];
    if last.id == id {
      forall s | s in front ensures s.id !in {id} {
        var i :| 0 <= i < |front| && front[i] == s;
      }
      KeepNothing(front, {id});
    } else {
      var i :| 0 <= i < |slots| && slots[i].id == id;
      assert front[i].id == id;
      TotalWithout(front, id);
      var kept := Keep(front, {id});
      assert (kept + [last])[..|kept|] == kept;
    }
  }

  lemma {:induction false} TotalSnoc<E>(slots: seq<Slot<E>>, s: Slot<E>)
    ensures Total(slots + [s]) == Total(slots) + s.size
  {
    assert (slots + [s])[..|slots|] == slots;
  }

  lemma {:induction false} KeepTwice<E>(slots: seq<Slot<E>>, a: set<string>, b: set<string>)
    ensures Keep(Keep(slots, a), b) == Keep(slots, a + b)
  {
    if slots != [] {
      var front, last := slots[..|slots| - 1], slots[|slots| - 1];
      KeepTwice(front, a, b);
      if last.id !in a {
        var kept := Keep(front, a);
        assert (kept + [last])[..|kept|] == kept;
      }
    }
  }

  /** Removing the oldest slot leaves the others as they are. */
  lemma {:induction false} KeepTail<E>(slots: seq<Slot<E>>)
    requires slots != [] && Unique(slots)
    ensures Keep(slots, {slots[0].id}) == slots[1..] && Find(slots, slots[0].id) == slots[0]
  {
    FindUnique(slots, slots[0]);
    if |slots| == 1 {
      assert slots[..0] == [] && slots[1..] == [];
    } else {
      var front, last := slots[..|slots| - 1], slots[|slots| - 1];
      KeepTail(front);
      assert front[1..] + [last] == slots[1..];
    }
  }

  lemma {:induction false} ExpiredHeld<E>(slots: seq<Slot<E>>, now: real, id: string)
    requires id in Expired(slots, now)
    ensures Holds(slots, id)
  {
    var front, last := slots[..|slots| - 1], slots[|slots| - 1];
    if id in Expired(front, now) {
      ExpiredHeld(front, now, id);
      var i :| 0 <= i < |front| && front[i].id == id;
      assert slots[i].id == id;
    } else {
      assert slots[|slots| - 1].id == id;
    }
  }

  /** The ids of the expired slots, each once. */
  lemma {:induction false} ExpiredIds<E>(slots: seq<Slot<E>>, now: real, s: Slot<E>)
    requires Unique(slots) && s in slots
    ensures s.id in Expired(slots, now) <==> now >= s.expires
  {
    var front, last := slots[..|slots| - 1], slots[|slots| - 1];
    assert slots == front + [last];
    LastOnce(slots);
    if s in front {
      ExpiredIds(front, now, s);
      InFront(slots, s);
    } else if last.id in Expired(front, now) {
      ExpiredHeld(front, now, last.id);
    }
  }

  lemma {:induction false} ExpiredOnce<E>(slots: seq<Slot<E>>, now: real)
    requires Unique(slots)
    ensures forall i, j :: 0 <= i < j < |Expired(slots, now)| ==> Expired(slots, now)[i] != Expired(slots, now)[j]
  {
    if slots != [] {
      var front, last := slots[..|slots| - 1], slots[|slots| - 1];
      ExpiredOnce(front, now);
      LastOnce(slots);
      if last.id in Expired(front, now) {
        ExpiredHeld(front, now, last.id);
      }
    }
  }

  function Ids(names: seq<string>): set<string> {
    set n | n in names
  }

  /** Keeping what has not expired is removing what has. */
  lemma {:induction false} AliveIsKept<E>(slots: seq<Slot<E>>, now: real, gone: set<string>)
    requires forall s :: s in slots ==> (s.id in gone <==> now >= s.expires)
    ensures Keep(slots, gone) == Alive(slots, now)
  {
    if slots != [] {
      var front := slots[..|slots| - 1];
      AliveIsKept(front, now, gone);
    }
  }

  /** One more slot of `size` bytes stays within both bounds. */
  predicate Fits<E>(slots: seq<Slot<E>>, size: nat, maxSlots: nat, maxBytes: nat) {
    |slots| < maxSlots && Total(slots) + size <= maxBytes
  }

  /** `k` is the least number of oldest slots that must go until one more of `size` bytes fits. */
  predicate Minimal<E>(slots: seq<Slot<E>>, k: nat, size: nat, maxSlots: nat, maxBytes: nat) {
    k <= |slots| && Fits(slots[k..], size, maxSlots, maxBytes) && forall j :: 0 <= j < k ==> !Fits(slots[j..], size, maxSlots, maxBytes)
  }

  /** A slot fits when both bounds hold with it in place: they may be reached. */
  lemma {:induction false} FitsExactly<E>(slots: seq<Slot<E>>, slot: Slot<E>, maxSlots: nat, maxBytes: nat)
    ensures Fits(slots, slot.size, maxSlots, maxBytes) <==> |slots + [slot]| <= maxSlots && Total(slots + [slot]) <= maxBytes
  {
    TotalSnoc(slots, slot);
  }

  /** A slot that is used moves to the end, and the others keep their order. */
  lemma {:induction false} TouchedMoves<E>(slots: seq<Slot<E>>, i: nat)
    requires Unique(slots) && i < |slots|
    ensures Holds(slots, slots[i].id) && Touched(slots, slots[i].id) == slots[..i] + slots[i + 1..] + [slots[i]]
    decreases |slots|
  {
    FindUnique(slots, slots[i]);
    Without(slots, i);
  }

  lemma {:induction false} Without<E>(slots: seq<Slot<E>>, i: nat)
    requires Unique(slots) && i < |slots|
    ensures Keep(slots, {slots[i].id}) == slots[..i] + slots[i + 1..]
    decreases |slots|
  {
    var n := |slots| - 1;
    var front := slots[..n];
    if i == n {
      KeepNothing(front, {slots[n].id});
      assert slots[i + 1..] == [];
    } else {
      Without(front, i);
      assert front[..i] == slots[..i] && front[i + 1..] + [slots[n]] == slots[i + 1..];
    }
  }

  /** What has not expired is what is still before its time, in the same order. */
  lemma {:induction false} AliveIs<E>(slots: seq<Slot<E>>, slot: Slot<E>, now: real)
    ensures Alive(slots + [slot], now) == Alive(slots, now) + (if now < slot.expires then [slot] else [])
    ensures Alive<E>([], now) == []
  {
    assert (slots + [slot])[..|slots|] == slots;
  }

  lemma {:induction false} NothingGone<E>(slots: seq<Slot<E>>)
    ensures Keep(slots, {}) == slots && Ids([]) == {}
  {
    KeepNothing(slots, {});
  }

  lemma {:induction false} StillHeld<E>(before: seq<Slot<E>>, now: real, i: nat)
    requires Unique(before) && i < |Expired(before, now)|
    ensures var (expired, kept) := (Expired(before, now), Keep(before, Ids(Expired(before, now)[..i])));
      Holds(kept, expired[i]) && Keep(kept, {expired[i]}) == Keep(before, Ids(expired[..i + 1]))
  {
    var expired := Expired(before, now);
    ExpiredHeld(before, now, expired[i]);
    ExpiredOnce(before, now);
    assert expired[i] !in expired[..i];
    Kept(before, Ids(expired[..i]), Find(before, expired[i]));
    HoldsById(Keep(before, Ids(expired[..i])), expired[i]);
    KeepTwice(before, Ids(expired[..i]), {expired[i]});
    assert expired[..i + 1] == expired[..i] + [expired[i]];
    assert Ids(expired[..i + 1]) == Ids(expired[..i]) + {expired[i]};
  }

  lemma {:induction false} AllExpired<E>(before: seq<Slot<E>>, now: real)
    requires Unique(before)
    ensures Keep(before, Ids(Expired(before, now))) == Alive(before, now)
  {
    forall s | s in before ensures s.id in Ids(Expired(before, now)) <==> now >= s.expires {
      ExpiredIds(before, now, s);
    }
    AliveIsKept(before, now, Ids(Expired(before, now)));
  }

  lemma {:induction false} OldestGoes<E>(before: seq<Slot<E>>, k: nat)
    requires k < |before| && Unique(before[k..])
    ensures Holds(before[k..], before[k..][0].id) && Keep(before[k..], {before[k..][0].id}) == before[k + 1..]
  {
    KeepTail(before[k..]);
    assert before[k..][0].id == before[k..][0].id;
    assert before[k..][1..] == before[k + 1..];
  }

  /** The `k` oldest slots are gone, and with any of them the new slot would not fit. */
  ghost predicate Shrunk<E>(before: seq<Slot<E>>, now: seq<Slot<E>>, k: nat, size: nat, maxSlots: nat, maxBytes: nat) {
    k <= |before| && now == before[k..] && forall j :: 0 <= j < k ==> !Fits(before[j..], size, maxSlots, maxBytes)
  }

  lemma {:induction false} ShrinkStart<E>(before: seq<Slot<E>>, size: nat, maxSlots: nat, maxBytes: nat)
    ensures Shrunk(before, before, 0, size, maxSlots, maxBytes)
  {
  }

  lemma {:induction false} ShrinkStep<E>(before: seq<Slot<E>>, now: seq<Slot<E>>, k: nat, size: nat, maxSlots: nat, maxBytes: nat)
    requires Shrunk(before, now, k, size, maxSlots, maxBytes) && now != [] && Unique(now) && !Fits(now, size, maxSlots, maxBytes)
    ensures Holds(now, now[0].id) && Shrunk(before, Keep(now, {now[0].id}), k + 1, size, maxSlots, maxBytes)
  {
    OldestGoes(before, k);
  }

  lemma {:induction false} ShrunkFits<E>(before: seq<Slot<E>>, now: seq<Slot<E>>, k: nat, size: nat, maxSlots: nat, maxBytes: nat)
    requires Shrunk(before, now, k, size, maxSlots, maxBytes) && Fits(now, size, maxSlots, maxBytes)
    ensures Minimal(before, k, size, maxSlots, maxBytes) && now == before[k..]
  {
  }

  lemma {:induction false} NotHeldLater<E>(alive: seq<Slot<E>>, k: nat, id: string)
    requires k <= |alive| && !Holds(alive, id)
    ensures !Holds(alive[k..], id)
  {
    forall i | 0 <= i < |alive[k..]| ensures alive[k..][i].id != id {
      assert alive[k..][i] == alive[k + i];
    }
  }

  lemma {:induction false} AdmittedUnique<E>(slots: seq<Slot<E>>, slot: Slot<E>)
    requires Unique(slots) && !Holds(slots, slot.id)
    ensures Unique(slots + [slot])
  {
    var after := slots + [slot];
    forall i, j | 0 <= i < j < |after| ensures after[i].id != after[j].id {
      assert slots[i].id != slot.id;
    }
  }

  /** Using a slot moves it, and changes neither how many there are nor their bytes. */
  lemma {:induction false} TouchedTotal<E>(slots: seq<Slot<E>>, id: string)
    requires Unique(slots) && Holds(slots, id)
    ensures Unique(Touched(slots, id)) && |Touched(slots, id)| == |slots| && Total(Touched(slots, id)) == Total(slots)
  {
    var kept, slot := Keep(slots, {id}), Find(slots, id);
    TotalWithout(slots, id);
    TotalSnoc(kept, slot);
    KeptUnique(slots, {id});
    forall i | 0 <= i < |kept| ensures kept[i].id != id {
      Kept(slots, {id}, kept[i]);
    }
    AdmittedUnique(kept, slot);
  }
}
