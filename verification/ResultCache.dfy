/** The result cache: texts with a fixed lifetime, in least-recently-used order, with a byte counter. */
module ResultCaches {
  import opened LruOrder
  import opened Wrappers

  type Texts = seq<Slot<string>>

  datatype PutResult = Stored(id: string) | TooBig | NoToken

  /** One use of the cache: a text put after the `dropped` oldest went, or refused after that; or a look. */
  datatype Use = Put(now: real, dropped: nat, slot: Option<Slot<string>>) | Look(now: real, id: string, owner: Option<string>)

  function Rest(slots: Texts, k: nat): Texts {
    if k <= |slots| then slots[k..] else []
  }

  /** The texts after one use. */
  function After(entries: Texts, u: Use): Texts {
    var alive := Alive(entries, u.now);
    match u
    case Put(_, dropped, slot) => if slot.Some? then Rest(alive, dropped) + [slot.value] else Rest(alive, dropped)
    case Look(_, id, owner) => if Holds(alive, id) && Find(alive, id).owner == owner then Touched(alive, id) else alive
  }

  class ResultCache {
    const maxEntries: nat
    const maxTotal: nat
    const maxItem: nat
    const ttl: real
    var entries: Texts
    var totalBytes: nat

    ghost predicate Valid()
      reads this
    {
      && 0 < maxEntries && 0 < maxItem <= maxTotal
      && Unique(entries) && totalBytes == Total(entries) <= maxTotal && |entries| <= maxEntries
    }

    constructor (maxEntries: nat, maxTotal: nat, maxItem: nat, ttl: real)
      requires 0 < maxEntries && 0 < maxItem <= maxTotal && ttl > 0.0
      ensures Valid() && entries == [] && this.maxItem == maxItem && this.maxTotal == maxTotal && this.maxEntries == maxEntries && this.ttl == ttl
    {
      this.maxEntries, this.maxTotal, this.maxItem, this.ttl := maxEntries, maxTotal, maxItem, ttl;
      entries, totalBytes := [], 0;
    }

    /** `_remove_locked`. */
    method Remove(id: string)
      requires Valid() && Holds(entries, id)
      modifies this
      ensures Valid() && entries == Keep(old(entries), {id}) && |entries| + 1 == |old(entries)|
    {
      TotalWithout(entries, id);
      KeptUnique(entries, {id});
      totalBytes := totalBytes - Find(entries, id).size;
      entries := Keep(entries, {id});
    }

    /** `_evict_expired_locked`. */
    method EvictExpired(now: real)
      requires Valid()
      modifies this
      ensures Valid() && entries == Alive(old(entries), now)
    {
      ghost var before := entries;
      var expired := Expired(entries, now);
      NothingGone(before);
      assert expired[..0] == [];
      for i := 0 to |expired|
        invariant Valid() && entries == Keep(before, Ids(expired[..i]))
      {
        StillHeld(before, now, i);
        Remove(expired[i]);
      }
      assert expired[..|expired|] == expired;
      AllExpired(before, now);
    }

    /** `put_text`: `size` is the length of the text in bytes, `tokens` what the generator draws. */
    method PutText(content: string, size: nat, owner: Option<string>, now: real, tokens: nat -> string, wellFormed: string -> bool)
      returns (r: PutResult, ghost dropped: nat)
      requires Valid()
      modifies this
      ensures Valid()
      ensures size > maxItem <==> r == TooBig
      ensures r == TooBig ==> entries == old(entries)
      ensures r != TooBig ==>
        && Minimal(Alive(old(entries), now), dropped, size, maxEntries, maxTotal)
        && entries == After(old(entries), Put(now, dropped, if r.Stored? then Some(Slot(r.id, size, now + ttl, owner, content)) else None))
      ensures r.Stored? ==> wellFormed(r.id) && !Holds(Rest(Alive(old(entries), now), dropped), r.id)
    {
      dropped := 0;
      if size > maxItem || size > maxTotal {
        return TooBig, 0;
      }
      EvictExpired(now);
      dropped := MakeRoom(size);
      var id := UniqueId(tokens, wellFormed);
      if id.None? {
        return NoToken, dropped;
      }
      Admit(Slot(id.value, size, now + ttl, owner, content));
      return Stored(id.value), dropped;
    }

    /** A text is added where there is room for it. */
    method Admit(slot: Slot<string>)
      requires Valid() && !Holds(entries, slot.id) && Fits(entries, slot.size, maxEntries, maxTotal)
      modifies this
      ensures Valid() && entries == old(entries) + [slot]
    {
      AdmittedUnique(entries, slot);
      TotalSnoc(entries, slot);
      entries, totalBytes := entries + [slot], totalBytes + slot.size;
    }

    /** Texts go, least recently used first, and no more of them than needed. */
    method MakeRoom(size: nat) returns (ghost dropped: nat)
      requires Valid() && size <= maxTotal
      modifies this
      ensures Valid() && Fits(entries, size, maxEntries, maxTotal)
      ensures Minimal(old(entries), dropped, size, maxEntries, maxTotal) && entries == old(entries)[dropped..]
    {
      ghost var before := entries;
      dropped := 0;
      ShrinkStart(before, size, maxEntries, maxTotal);
      while |entries| >= maxEntries || totalBytes + size > maxTotal
        invariant Valid() && Shrunk(before, entries, dropped, size, maxEntries, maxTotal)
        decreases |entries|
      {
        ShrinkStep(before, entries, dropped, size, maxEntries, maxTotal);
        Remove(entries[0].id);
        dropped := dropped + 1;
      }
      ShrunkFits(before, entries, dropped, size, maxEntries, maxTotal);
    }

    /** `_unique_result_id_locked`: sixteen draws; a malformed token ends them. */
    method UniqueId(tokens: nat -> string, wellFormed: string -> bool) returns (id: Option<string>)
      ensures id.Some? ==> wellFormed(id.value) && !Holds(entries, id.value)
      ensures id.None? ==> (exists i :: 0 <= i < 16 && !wellFormed(tokens(i))) || forall i :: 0 <= i < 16 ==> Holds(entries, tokens(i))
    {
      for i := 0 to 16
        invariant forall j :: 0 <= j < i ==> Holds(entries, tokens(j))
      {
        if !wellFormed(tokens(i)) {
          return None;
        }
        if !Holds(entries, tokens(i)) {
          return Some(tokens(i));
        }
      }
      return None;
    }

    /** `get`: the text while it lives, for its owner; it becomes the most recently used. A malformed id
        is refused before anything expires. */
    method Get(id: string, owner: Option<string>, now: real, wellFormed: string -> bool) returns (r: Option<string>)
      requires Valid()
      modifies this
      ensures Valid()
      ensures !wellFormed(id) ==> r == None && entries == old(entries) && totalBytes == old(totalBytes)
      ensures wellFormed(id) ==> var alive := Alive(old(entries), now);
        && r == (if Holds(alive, id) && Find(alive, id).owner == owner then Some(Find(alive, id).value) else None)
        && entries == After(old(entries), Look(now, id, owner))
    {
      if !wellFormed(id) {
        return None;
      }
      EvictExpired(now);
      if !Holds(entries, id) || Find(entries, id).owner != owner {
        return None;
      }
      var slot := Find(entries, id);
      TouchedTotal(entries, id);
      entries := Keep(entries, {id}) + [slot];
      return Some(slot.value);
    }
  }

  // ----- From a put to a later get

  /** Neither expiry nor eviction takes the text at this use, and a new text takes a free id. */
  predicate Spares(entries: Texts, u: Use, slot: Slot<string>) {
    && u.now < slot.expires
    && (u.Put? ==>
        && slot in Rest(Alive(entries, u.now), u.dropped)
        && (u.slot.Some? ==> !Holds(Rest(Alive(entries, u.now), u.dropped), u.slot.value.id)))
  }

  function AfterAll(entries: Texts, uses: seq<Use>): Texts {
    if uses == [] then entries else After(AfterAll(entries, uses[..|uses| - 1]), uses[|uses| - 1])
  }

  predicate AllSpare(entries: Texts, uses: seq<Use>, slot: Slot<string>) {
    uses == [] ||
    (AllSpare(entries, uses[..|uses| - 1], slot) && Spares(AfterAll(entries, uses[..|uses| - 1]), uses[|uses| - 1], slot))
  }

  lemma {:induction false} AliveKeeps(entries: Texts, now: real, slot: Slot<string>)
    requires Unique(entries)
    ensures Unique(Alive(entries, now)) && (slot in Alive(entries, now) <==> slot in entries && now < slot.expires)
  {
    AllExpired(entries, now);
    KeptUnique(entries, Ids(Expired(entries, now)));
    Kept(entries, Ids(Expired(entries, now)), slot);
    if slot in entries {
      ExpiredIds(entries, now, slot);
    }
  }

  lemma {:induction false} TouchKeeps(slots: Texts, id: string, slot: Slot<string>)
    requires Unique(slots) && Holds(slots, id)
    ensures Unique(Touched(slots, id)) && (slot in slots ==> slot in Touched(slots, id))
  {
    TouchedTotal(slots, id);
    Kept(slots, {id}, slot);
    if slot in slots && slot.id == id {
      FindUnique(slots, slot);
    }
  }

  lemma {:induction false} UseKeeps(entries: Texts, u: Use, slot: Slot<string>)
    requires Unique(entries) && slot in entries && Spares(entries, u, slot)
    ensures Unique(After(entries, u)) && slot in After(entries, u)
  {
    var alive := Alive(entries, u.now);
    AliveKeeps(entries, u.now, slot);
    match u
    case Put(_, dropped, put) =>
      assert Unique(Rest(alive, dropped));
      if put.Some? {
        AdmittedUnique(Rest(alive, dropped), put.value);
      }
    case Look(_, id, owner) =>
      if Holds(alive, id) {
        TouchKeeps(alive, id, slot);
      }
  }

  lemma {:induction false} UsesKeep(entries: Texts, uses: seq<Use>, slot: Slot<string>)
    requires Unique(entries) && slot in entries && AllSpare(entries, uses, slot)
    ensures Unique(AfterAll(entries, uses)) && slot in AfterAll(entries, uses)
  {
    if uses != [] {
      UsesKeep(entries, uses[..|uses| - 1], slot);
      UseKeeps(AfterAll(entries, uses[..|uses| - 1]), uses[|uses| - 1], slot);
    }
  }

  /** A text that was put is what its owner gets after any number of other puts and gets, until it expires
      or is evicted; nobody else gets it. */
  lemma {:induction false} PutThenGet(before: Texts, slot: Slot<string>, uses: seq<Use>, now: real)
    requires Unique(before + [slot]) && AllSpare(before + [slot], uses, slot) && now < slot.expires
    ensures var alive := Alive(AfterAll(before + [slot], uses), now);
      Holds(alive, slot.id) && Find(alive, slot.id) == slot
  {
    assert (before + [slot])[|before|] == slot;
    UsesKeep(before + [slot], uses, slot);
    var entries := AfterAll(before + [slot], uses);
    AliveKeeps(entries, now, slot);
    FindUnique(Alive(entries, now), slot);
  }

  // ----- Least recently used first

  /** The text that a use is one of, if it is. */
  function UseOf(entries: Texts, u: Use): Option<string> {
    match u
    case Put(_, _, slot) => if slot.Some? then Some(slot.value.id) else None
    case Look(now, id, owner) =>
      if Holds(Alive(entries, now), id) && Find(Alive(entries, now), id).owner == owner then Some(id) else None
  }

  /** When a text was last put or successfully got; zero if never. */
  function LastUse(uses: seq<Use>, id: string): (n: nat)
    ensures n <= |uses|
  {
    if uses == [] then 0 else
      var front, u := uses[..|uses| - 1], uses[|uses| - 1];
      if UseOf(AfterAll([], front), u) == Some(id) then |uses| else LastUse(front, id)
  }

  /** New texts take ids that are free then. */
  predicate TakeFreeIds(uses: seq<Use>) {
    uses == [] ||
    var (front, u) := (uses[..|uses| - 1], uses[|uses| - 1]);
    TakeFreeIds(front) && (u.Put? && u.slot.Some? ==> !Holds(Rest(Alive(AfterAll([], front), u.now), u.dropped), u.slot.value.id))
  }

  predicate Ranked(slots: Texts, uses: seq<Use>) {
    forall i, j :: 0 <= i < j < |slots| ==> LastUse(uses, slots[i].id) < LastUse(uses, slots[j].id)
  }

  lemma {:induction false} AliveRanked(slots: Texts, uses: seq<Use>, now: real)
    requires Ranked(slots, uses)
    ensures Ranked(Alive(slots, now), uses) && forall s :: s in Alive(slots, now) ==> s in slots
    decreases |slots|
  {
    if slots != [] {
      var front, last := slots[..|slots| - 1], slots[|slots| - 1];
      AliveRanked(front, uses, now);
      var alive := Alive(front, now);
      forall i | 0 <= i < |alive| ensures LastUse(uses, alive[i].id) < LastUse(uses, last.id) {
        assert alive[i] in alive && alive[i] in front;
        var k :| 0 <= k < |front| && front[k] == alive[i];
      }
    }
  }

  /** The same ranks and a new one behind them. */
  lemma {:induction false} RankedBehind(slots: Texts, slot: Slot<string>, front: seq<Use>, u: Use)
    requires Ranked(slots, front) && UseOf(AfterAll([], front), u) == Some(slot.id)
    requires forall s :: s in slots ==> s.id != slot.id
    ensures Ranked(slots + [slot], front + [u])
  {
    var uses, whole := front + [u], slots + [slot];
    assert uses[..|uses| - 1] == front;
    forall i | 0 <= i < |slots| ensures LastUse(uses, whole[i].id) == LastUse(front, slots[i].id) {
      assert slots[i] in slots;
    }
  }

  lemma {:induction false} RankedStill(slots: Texts, front: seq<Use>, u: Use)
    requires Ranked(slots, front) && UseOf(AfterAll([], front), u).None?
    ensures Ranked(slots, front + [u])
  {
    assert (front + [u])[..|front|] == front;
  }

  lemma {:induction false} RankedTail(slots: Texts, uses: seq<Use>, k: nat)
    requires Ranked(slots, uses) && Unique(slots)
    ensures Ranked(Rest(slots, k), uses) && Unique(Rest(slots, k)) && forall s :: s in Rest(slots, k) ==> s in slots
  {
  }

  lemma {:induction false} RankedWithout(slots: Texts, uses: seq<Use>, k: nat)
    requires Ranked(slots, uses) && Unique(slots) && k < |slots|
    ensures Ranked(slots[..k] + slots[k + 1..], uses) && forall s :: s in slots[..k] + slots[k + 1..] ==> s.id != slots[k].id
  {
    var rest := slots[..k] + slots[k + 1..];
    assert forall i :: 0 <= i < |rest| ==> rest[i] == slots[if i < k then i else i + 1];
  }

  lemma {:induction false} UseRanks(entries: Texts, front: seq<Use>, u: Use)
    requires Unique(entries) && Ranked(entries, front) && entries == AfterAll([], front) && TakeFreeIds(front + [u])
    ensures Unique(After(entries, u)) && Ranked(After(entries, u), front + [u])
  {
    var alive := Alive(entries, u.now);
    assert (front + [u])[..|front|] == front;
    AliveRanked(entries, front, u.now);
    AllExpired(entries, u.now);
    KeptUnique(entries, Ids(Expired(entries, u.now)));
    match u
    case Put(_, dropped, slot) =>
      var rest := Rest(alive, dropped);
      RankedTail(alive, front, dropped);
      if slot.Some? {
        HoldsById(rest, slot.value.id);
        AdmittedUnique(rest, slot.value);
        RankedBehind(rest, slot.value, front, u);
      } else {
        RankedStill(rest, front, u);
      }
    case Look(_, id, owner) =>
      if UseOf(entries, u).Some? {
        var k :| 0 <= k < |alive| && alive[k].id == id;
        TouchedMoves(alive, k);
        TouchedTotal(alive, id);
        RankedWithout(alive, front, k);
        RankedBehind(alive[..k] + alive[k + 1..], alive[k], front, u);
      } else {
        RankedStill(alive, front, u);
      }
  }

  /** Over every run from an empty cache: the texts stand in the order in which they were last put or got, so that those
      which eviction takes from the front are the least recently used. */
  lemma {:induction false} LeastRecentlyUsedFirst(uses: seq<Use>)
    requires TakeFreeIds(uses)
    ensures Unique(AfterAll([], uses)) && Ranked(AfterAll([], uses), uses)
    decreases |uses|
  {
    if uses != [] {
      var front, u := uses[..|uses| - 1], uses[|uses| - 1];
      LeastRecentlyUsedFirst(front);
      assert uses == front + [u];
      UseRanks(AfterAll([], front), front, u);
    }
  }
}
