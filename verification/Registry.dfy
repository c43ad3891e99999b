/** The preparation registry of `persistent.py`: two bounded ordered maps, and the regions
    executed under the registry lock. */
module Registry {
  import opened Bytes
  import opened Ids
  import opened Models

  const MAX_ACTIVE: nat := 32
  const MAX_TOMBS: nat := 128

  /** `_IssuedPreparation`, with its key. Owners are identities: a weak reference answers
      nothing once its owner is no longer alive. */
  datatype Entry = Entry(id: string, owner: nat, public: Prepared, intent: string, consumed: bool, executing: bool)

  datatype Tomb = Tomb(id: string, owner: nat, consumed: bool)

  /** `_PREPARATIONS`, `_TOMBSTONES` (oldest first) and the next issuance serial. */
  datatype State = State(active: seq<Entry>, tombs: seq<Tomb>, next: nat)

  datatype Refusal = Busy | Collision

  datatype Verdict = Passed | Unknown | Tampered | Stale | Consumed

  // ---------------------------------------------------------------- ordered maps

  function Filter<T>(s: seq<T>, keep: T -> bool): (r: seq<T>)
    ensures |r| <= |s|
  {
    if s == [] then [] else Filter(s[..|s| - 1], keep) + if keep(s[|s| - 1]) then [s[|s| - 1]] else []
  }

  predicate Pairwise<T(!new)>(s: seq<T>, rel: (T, T) -> bool) {
    forall i, j :: 0 <= i < j < |s| ==> rel(s[i], s[j])
  }

  lemma {:induction false} FilterMembers<T>(s: seq<T>, keep: T -> bool, x: T)
    ensures x in Filter(s, keep) <==> x in s && keep(x)
  {
    if s != [] {
      FilterMembers(s[..|s| - 1], keep, x);
      assert s == s[..|s| - 1] + [s[|s| - 1]];
    }
  }

  lemma {:induction false} FilterIsShorter<T>(s: seq<T>, keep: T -> bool)
    ensures |Filter(s, keep)| <= |s|
  {
    if s != [] {
      FilterIsShorter(s[..|s| - 1], keep);
    }
  }

  lemma {:induction false} FilterPairwise<T(!new)>(s: seq<T>, keep: T -> bool, rel: (T, T) -> bool)
    requires Pairwise(s, rel)
    ensures Pairwise(Filter(s, keep), rel)
  {
    if s != [] {
      var init, last := s[..|s| - 1], s[|s| - 1];
      FilterPairwise(init, keep, rel);
      forall i | 0 <= i < |Filter(init, keep)|
        ensures rel(Filter(init, keep)[i], last)
      {
        FilterMembers(init, keep, Filter(init, keep)[i]);
      }
    }
  }

  /** Position of the first element that satisfies `p`, or the length. */
  function First<T>(s: seq<T>, p: T -> bool): (k: nat)
    ensures k <= |s|
    ensures k < |s| ==> p(s[k]) && s[k] in s
    ensures forall i :: 0 <= i < k ==> !p(s[i])
  {
    if s == [] then 0 else if p(s[0]) then 0 else 1 + First(s[1..], p)
  }

  /** `_PREPARATIONS.get`. */
  function IndexOf(active: seq<Entry>, id: string): (k: nat)
    ensures k <= |active|
    ensures k < |active| ==> active[k].id == id && active[k] in active
    ensures forall i :: 0 <= i < k ==> active[i].id != id
  {
    First(active, (e: Entry) => e.id == id)
  }

  /** `_TOMBSTONES.get`. */
  function TombOf(tombs: seq<Tomb>, id: string): (k: nat)
    ensures k <= |tombs|
    ensures k < |tombs| ==> tombs[k].id == id && tombs[k] in tombs
    ensures forall i :: 0 <= i < k ==> tombs[i].id != id
  {
    First(tombs, (t: Tomb) => t.id == id)
  }

  function RemoveAt<T>(s: seq<T>, k: nat): seq<T>
    requires k < |s|
  {
    s[..k] + s[k + 1..]
  }

  // ---------------------------------------------------------------- the helpers that hold the lock

  /** `_trim_tombstones_locked`: the newest 128. */
  function Trim(tombs: seq<Tomb>): seq<Tomb> {
    if |tombs| > MAX_TOMBS then tombs[|tombs| - MAX_TOMBS..] else tombs
  }

  /** `_add_tombstone_locked`. */
  function AddTomb(tombs: seq<Tomb>, tomb: Tomb): seq<Tomb> {
    Trim(Filter(tombs, (t: Tomb) => t.id != tomb.id) + [tomb])
  }

  /** `_retire_locked` of the entry at position `k`. */
  function Retire(s: State, k: nat, consumed: bool): State
    requires k < |s.active|
  {
    s.(active := RemoveAt(s.active, k), tombs := AddTomb(s.tombs, Tomb(s.active[k].id, s.active[k].owner, consumed)))
  }

  /** `_reclaim_dead_locked`. */
  function Reclaim(s: State, dead: set<nat>): State {
    s.(active := Filter(s.active, (e: Entry) => e.owner !in dead || e.executing),
       tombs := Filter(s.tombs, (t: Tomb) => t.owner !in dead))
  }

  /** The oldest entry that is not executing. */
  function FirstIdle(active: seq<Entry>): (k: nat)
    ensures k <= |active|
    ensures k < |active| ==> !active[k].executing
    ensures forall i :: 0 <= i < k ==> active[i].executing
  {
    First(active, (e: Entry) => !e.executing)
  }

  lemma OldestIdle(active: seq<Entry>, k: nat)
    requires k <= |active| && (forall i :: 0 <= i < k ==> active[i].executing)
    requires k < |active| ==> !active[k].executing
    ensures k == FirstIdle(active)
  {
  }

  /** The eviction loop. */
  function Shrink(s: State): (r: (State, bool))
    decreases |s.active|
  {
    if |s.active| < MAX_ACTIVE then (s, true)
    else
      var k := FirstIdle(s.active);
      if k == |s.active| then (s, false) else Shrink(Retire(s, k, s.active[k].consumed))
  }

  /** `_make_active_room_locked`. */
  function MakeRoom(s: State, dead: set<nat>): (State, bool) {
    Shrink(Reclaim(s, dead))
  }

  predicate Taken(s: State, id: string) {
    IndexOf(s.active, id) < |s.active| || TombOf(s.tombs, id) < |s.tombs|
  }

  /** `_register`. */
  function Register(s: State, dead: set<nat>, owner: nat, public: Prepared, intent: string)
    : (State, Result<Prepared, Refusal>)
  {
    var (room, ok) := MakeRoom(s, dead);
    if !ok then (room, Err(Busy))
    else
      var issued := public.(id := IssuedId(public.id, room.next));
      var counted := room.(next := room.next + 1);
      if Taken(counted, issued.id) then (counted, Err(Collision))
      else
        var entry := Entry(issued.id, owner, issued, intent, false, false);
        (counted.(active := counted.active + [entry]), Ok(issued))
  }

  /** `_retired_terminal`, or `absent` when no tombstone answers. */
  function RetiredVerdict(s: State, owner: nat, id: string, absent: Verdict): Verdict {
    var k := TombOf(s.tombs, id);
    if k == |s.tombs| || s.tombs[k].owner != owner then absent
    else if s.tombs[k].consumed then Consumed
    else Stale
  }

  /** The first locked region of `execute_prepared`. */
  function Check(s: State, owner: nat, prepared: Prepared): Verdict {
    var k := IndexOf(s.active, prepared.id);
    if k == |s.active| then RetiredVerdict(s, owner, prepared.id, Unknown)
    else if s.active[k].owner != owner then Unknown
    else if prepared != s.active[k].public then Tampered
    else if s.active[k].consumed then Consumed
    else Passed
  }

  /** The checks of the second region, under the coordinator's claim. */
  function Recheck(s: State, owner: nat, prepared: Prepared): Verdict {
    var k := IndexOf(s.active, prepared.id);
    if k == |s.active| then RetiredVerdict(s, owner, prepared.id, Stale)
    else if s.active[k].owner != owner || prepared != s.active[k].public then Stale
    else if s.active[k].consumed then Consumed
    else Passed
  }

  /** Acceptance: the entry is consumed and executing from here on. */
  function Accept(s: State, id: string): State {
    var k := IndexOf(s.active, id);
    if k == |s.active| then s
    else s.(active := s.active[k := s.active[k].(consumed := true, executing := true)])
  }

  /** `_finish_accepted_record`. */
  function Finish(s: State, dead: set<nat>, id: string): State {
    var k := IndexOf(s.active, id);
    var retired := if k == |s.active| then s else Retire(s, k, true);
    var swept := Reclaim(retired, dead);
    swept.(tombs := Trim(swept.tombs))
  }

  // ---------------------------------------------------------------- what every region keeps

  predicate Older(a: Entry, b: Entry) {
    SerialOf(a.id) < SerialOf(b.id)
  }

  predicate Apart(a: Tomb, b: Tomb) {
    a.id != b.id
  }

  /** Bounds, disjoint keys, and active keys in issuance order. */
  ghost predicate Sound(s: State) {
    && |s.active| <= MAX_ACTIVE && |s.tombs| <= MAX_TOMBS
    && Pairwise(s.active, Older) && Pairwise(s.tombs, Apart)
    && (forall e :: e in s.active ==> SerialOf(e.id) < s.next && e.public.id == e.id)
    && (forall t :: t in s.tombs ==> SerialOf(t.id) < s.next)
    && (forall e, t :: e in s.active && t in s.tombs ==> e.id != t.id)
  }

  /** Nothing executing disappears, and nothing appears. */
  predicate Shrunk(s: State, r: State) {
    r.next == s.next && (forall e :: e in r.active ==> e in s.active) &&
    forall e :: e in s.active && e.executing ==> e in r.active
  }

  lemma ReclaimIsSound(s: State, dead: set<nat>)
    requires Sound(s)
    ensures Sound(Reclaim(s, dead)) && Shrunk(s, Reclaim(s, dead))
    ensures forall e :: e in Reclaim(s, dead).active <==> e in s.active && (e.owner !in dead || e.executing)
    ensures forall t :: t in Reclaim(s, dead).tombs <==> t in s.tombs && t.owner !in dead
  {
    hide Older;
    hide Apart;
    var r := Reclaim(s, dead);
    var keepEntry := (e: Entry) => e.owner !in dead || e.executing;
    var keepTomb := (t: Tomb) => t.owner !in dead;
    FilterPairwise(s.active, keepEntry, Older);
    FilterPairwise(s.tombs, keepTomb, Apart);
    forall e: Entry
      ensures e in r.active <==> e in s.active && keepEntry(e)
    {
      FilterMembers(s.active, keepEntry, e);
    }
    forall t: Tomb
      ensures t in r.tombs <==> t in s.tombs && keepTomb(t)
    {
      FilterMembers(s.tombs, keepTomb, t);
    }
  }

  lemma AddTombIsSound(tombs: seq<Tomb>, tomb: Tomb)
    requires Pairwise(tombs, Apart)
    ensures Pairwise(AddTomb(tombs, tomb), Apart) && |AddTomb(tombs, tomb)| <= MAX_TOMBS
    ensures forall t :: t in AddTomb(tombs, tomb) ==> t == tomb || (t in tombs && t.id != tomb.id)
    ensures tomb in AddTomb(tombs, tomb)
  {
    var keep := (t: Tomb) => t.id != tomb.id;
    var kept := Filter(tombs, keep);
    FilterPairwise(tombs, keep, Apart);
    forall t: Tomb
      ensures t in kept <==> t in tombs && keep(t)
    {
      FilterMembers(tombs, keep, t);
    }
    var all := kept + [tomb];
    assert forall i :: 0 <= i < |kept| ==> kept[i] in kept;
    assert Pairwise(all, Apart);
    assert AddTomb(tombs, tomb)[|AddTomb(tombs, tomb)| - 1] == tomb;
    forall t | t in AddTomb(tombs, tomb)
      ensures t in all
    {
    }
  }

  lemma RemovePairwise<T(!new)>(s: seq<T>, k: nat, rel: (T, T) -> bool)
    requires k < |s| && Pairwise(s, rel)
    ensures Pairwise(RemoveAt(s, k), rel)
  {
  }

  /** Position in the map is order of issuance. */
  lemma ByAge(active: seq<Entry>, i: nat, j: nat)
    requires i < |active| && j < |active| && Pairwise(active, Older)
    ensures i < j <==> SerialOf(active[i].id) < SerialOf(active[j].id)
  {
    assert i < j ==> Older(active[i], active[j]);
    assert j < i ==> Older(active[j], active[i]);
  }

  lemma RemoveKeepsOthers(active: seq<Entry>, k: nat)
    requires k < |active| && Pairwise(active, Older)
    ensures forall e :: e in RemoveAt(active, k) <==> e in active && e.id != active[k].id
  {
    hide Pairwise;
    hide SerialOf;
    var r := RemoveAt(active, k);
    forall i | 0 <= i < |active| && i != k
      ensures active[i].id != active[k].id && active[i] in r
    {
      assert r[if i < k then i else i - 1] == active[i];
      ByAge(active, i, k);
      ByAge(active, k, i);
    }
    forall e | e in r
      ensures e in active && e.id != active[k].id
    {
      var i :| 0 <= i < |r| && r[i] == e;
      assert active[if i < k then i else i + 1] == e;
    }
  }

  lemma RetireIsSound(s: State, k: nat, consumed: bool)
    requires k < |s.active| && Sound(s)
    ensures Sound(Retire(s, k, consumed)) && Retire(s, k, consumed).next == s.next
    ensures forall e :: e in Retire(s, k, consumed).active <==> e in s.active && e.id != s.active[k].id
    ensures Tomb(s.active[k].id, s.active[k].owner, consumed) in Retire(s, k, consumed).tombs
    ensures |Retire(s, k, consumed).active| == |s.active| - 1
  {
    hide AddTomb;
    RemovePairwise(s.active, k, Older);
    RemoveKeepsOthers(s.active, k);
    AddTombIsSound(s.tombs, Tomb(s.active[k].id, s.active[k].owner, consumed));
    assert s.active[k] in s.active;
    hide RemoveAt;
    hide Pairwise;
  }

  /** MAIN RESULT. Making room fails only when all 32 entries are executing; otherwise it
      evicts at most the oldest entry that is not, and never one that is. */
  lemma RoomIsMade(s: State)
    requires Sound(s)
    ensures var (r, ok) := Shrink(s);
            && Sound(r) && Shrunk(s, r)
            && (ok <==> |s.active| < MAX_ACTIVE || exists e :: e in s.active && !e.executing)
            && (ok ==> |r.active| < MAX_ACTIVE) && (!ok ==> r == s)
            && forall e :: e in s.active && e !in r.active ==>
                 !e.executing && Tomb(e.id, e.owner, e.consumed) in r.tombs && |s.active| == MAX_ACTIVE &&
                 forall older :: older in s.active && SerialOf(older.id) < SerialOf(e.id) ==> older.executing
  {
    hide SerialOf;
    hide First;
    hide FirstIdle;
    var k := FirstIdle(s.active);
    if |s.active| < MAX_ACTIVE {
    } else if k == |s.active| {
      assert forall e :: e in s.active ==> e.executing;
    } else {
      hide Retire;
      RetireIsSound(s, k, s.active[k].consumed);
      assert s.active[k] in s.active;
      forall e, older
        | e in s.active && e.id == s.active[k].id && older in s.active && SerialOf(older.id) < SerialOf(e.id)
        ensures older.executing
      {
        var j :| 0 <= j < |s.active| && s.active[j] == older;
        ByAge(s.active, j, k);
      }
      forall e | e in s.active && e.id == s.active[k].id
        ensures e == s.active[k]
      {
        SameIdSameEntry(s, e, s.active[k]);
      }
    }
  }

  lemma SameIdSameEntry(s: State, a: Entry, b: Entry)
    requires Sound(s) && a in s.active && b in s.active && a.id == b.id
    ensures a == b
  {
    var i :| 0 <= i < |s.active| && s.active[i] == a;
    var j :| 0 <= j < |s.active| && s.active[j] == b;
    ByAge(s.active, i, j);
    ByAge(s.active, j, i);
  }

  /** An entry that gives way to a new one: its owner is dead, or with all 32 places taken it
      is the oldest that is not executing, and then it leaves a tombstone. */
  ghost predicate GivesWay(s: State, dead: set<nat>, e: Entry, tombs: seq<Tomb>) {
    !e.executing &&
    (e.owner in dead ||
     (Tomb(e.id, e.owner, e.consumed) in tombs && |Reclaim(s, dead).active| == MAX_ACTIVE &&
      forall older :: older in s.active && older.owner !in dead && SerialOf(older.id) < SerialOf(e.id) ==>
        older.executing))
  }

  /** Registration never collides; it fails only when the registry is full of executing
      entries, and otherwise appends one fresh, unconsumed entry. No other entry goes but the
      one that has to. */
  lemma RegisterIsSound(s: State, dead: set<nat>, owner: nat, public: Prepared, intent: string)
    requires Sound(s)
    ensures var (r, answer) := Register(s, dead, owner, public, intent);
            && Sound(r)
            && (answer.Err? ==> answer.error == Busy && Shrunk(s, r) && |s.active| == MAX_ACTIVE &&
                                forall e :: e in s.active ==> e.executing)
            && (answer.Ok? ==>
                  var entry := Entry(IssuedId(public.id, s.next), owner, answer.value, intent, false, false);
                  && answer.value == public.(id := entry.id) && r.next == s.next + 1
                  && r.active != [] && r.active[|r.active| - 1] == entry
                  && (forall e :: e in r.active ==> e == entry || e in s.active)
                  && forall e :: e in s.active && e.executing ==> e in r.active)
            && forall e :: e in s.active && e !in r.active ==> GivesWay(s, dead, e, r.tombs)
  {
    hide SerialOf;
    hide Shrink;
    hide Filter;
    hide Pairwise;
    ReclaimIsSound(s, dead);
    var swept := Reclaim(s, dead);
    RoomIsMade(swept);
    var (room, ok) := MakeRoom(s, dead);
    forall e | e in s.active && e !in room.active
      ensures GivesWay(s, dead, e, room.tombs)
    {
      RoomGivesWay(s, dead, e);
    }
    if ok {
      var id := IssuedId(public.id, room.next);
      SerialIsRecovered(public.id, room.next);
      AppendKeepsOrder(room.active, Entry(id, owner, public.(id := id), intent, false, false));
    } else {
      FullSweep(s, dead);
    }
  }

  lemma RoomGivesWay(s: State, dead: set<nat>, e: Entry)
    requires Sound(s) && e in s.active && e !in MakeRoom(s, dead).0.active
    ensures GivesWay(s, dead, e, MakeRoom(s, dead).0.tombs)
  {
    hide SerialOf;
    hide Shrink;
    hide Filter;
    hide Pairwise;
    hide Sound;
    ReclaimIsSound(s, dead);
    RoomIsMade(Reclaim(s, dead));
  }

  lemma AppendKeepsOrder(active: seq<Entry>, e: Entry)
    requires Pairwise(active, Older) && forall a :: a in active ==> Older(a, e)
    ensures Pairwise(active + [e], Older)
  {
    hide Older;
    forall i, j | 0 <= i < j < |active + [e]|
      ensures Older((active + [e])[i], (active + [e])[j])
    {
      assert active[i] in active;
    }
  }

  /** A sweep that drops nothing leaves the active map as it was. */
  lemma {:induction false} FilterDropsNothing<T>(s: seq<T>, keep: T -> bool)
    requires |Filter(s, keep)| == |s|
    ensures forall x :: x in s ==> keep(x)
  {
    if s != [] {
      FilterDropsNothing(s[..|s| - 1], keep);
      assert s == s[..|s| - 1] + [s[|s| - 1]];
    }
  }

  lemma FullSweep(s: State, dead: set<nat>)
    requires |s.active| == MAX_ACTIVE == |Reclaim(s, dead).active|
    requires forall e :: e in Reclaim(s, dead).active ==> e.executing
    ensures forall e :: e in s.active ==> e.executing
  {
    var keep := (e: Entry) => e.owner !in dead || e.executing;
    FilterDropsNothing(s.active, keep);
    forall e | e in s.active
      ensures e.executing
    {
      FilterMembers(s.active, keep, e);
    }
  }

  lemma {:induction false} IndexOfEntry(s: State, e: Entry)
    requires Sound(s) && e in s.active
    ensures IndexOf(s.active, e.id) < |s.active| && s.active[IndexOf(s.active, e.id)] == e
  {
    var i :| 0 <= i < |s.active| && s.active[i] == e;
    var k := IndexOf(s.active, e.id);
    assert s.active[k] in s.active;
    SameIdSameEntry(s, e, s.active[k]);
  }

  lemma UpdateKeepsOrder(active: seq<Entry>, k: nat, e: Entry)
    requires k < |active| && Pairwise(active, Older) && e.id == active[k].id
    ensures Pairwise(active[k := e], Older)
  {
    var updated := active[k := e];
    forall i, j | 0 <= i < j < |updated|
      ensures Older(updated[i], updated[j])
    {
      assert Older(active[i], active[j]);
    }
  }

  lemma AcceptIsSound(s: State, id: string)
    requires Sound(s)
    ensures Sound(Accept(s, id)) && Accept(s, id).next == s.next
    ensures forall e :: e in Accept(s, id).active ==> if e.id == id then e.consumed && e.executing else e in s.active
    ensures forall e :: e in s.active ==> e.id == id || e in Accept(s, id).active
    ensures IndexOf(s.active, id) < |s.active| ==>
              s.active[IndexOf(s.active, id)].(consumed := true, executing := true) in Accept(s, id).active
  {
    hide SerialOf;
    hide Pairwise;
    var k := IndexOf(s.active, id);
    if k < |s.active| {
      var r := Accept(s, id);
      forall e | e in r.active
        ensures if e.id == id then e == r.active[k] else e in s.active
      {
        var i :| 0 <= i < |r.active| && r.active[i] == e;
        if i != k {
          assert s.active[i] == e;
          ByAge(s.active, i, k);
          ByAge(s.active, k, i);
        }
      }
      forall e | e in s.active && e.id != id
        ensures e in r.active
      {
        var i :| 0 <= i < |s.active| && s.active[i] == e;
        assert r.active[i] == e;
      }
      UpdateKeepsOrder(s.active, k, r.active[k]);
      forall e, t | e in r.active && t in r.tombs
        ensures e.id != t.id
      {
        assert s.active[k] in s.active;
      }
      assert forall e :: e in r.active ==> e.id == id || e in s.active;
      assert s.active[k] in s.active;
    }
  }

  lemma FinishIsSound(s: State, dead: set<nat>, id: string)
    requires Sound(s)
    ensures Sound(Finish(s, dead, id)) && Finish(s, dead, id).next == s.next
    ensures forall e :: e in Finish(s, dead, id).active <==>
              e in s.active && e.id != id && (e.owner !in dead || e.executing)
    // No living owner's tombstone goes, unless all 128 places were taken.
    ensures forall t :: t in s.tombs && t.owner !in dead && t.id != id ==>
              t in Finish(s, dead, id).tombs || |s.tombs| == MAX_TOMBS
  {
    hide SerialOf;
    hide Filter;
    hide Pairwise;
    hide Retire;
    var k := IndexOf(s.active, id);
    var alive := (t: Tomb) => t.owner !in dead;
    var retired := if k == |s.active| then s else Retire(s, k, true);
    if k == |s.active| {
      AbsentId(s.active, id);
    } else {
      RetireIsSound(s, k, true);
    }
    ReclaimIsSound(retired, dead);
    FilterIsShorter(retired.tombs, alive);
    forall t | t in s.tombs && t.owner !in dead && t.id != id
      ensures t in Finish(s, dead, id).tombs || |s.tombs| == MAX_TOMBS
    {
      if k < |s.active| && |s.tombs| < MAX_TOMBS {
        RetireKeepsTombs(s, k, true, t);
      }
      FilterMembers(retired.tombs, alive, t);
    }
  }

  /** With room for one more, retiring an entry drops no tombstone of another key. */
  lemma RetireKeepsTombs(s: State, k: nat, consumed: bool, t: Tomb)
    requires k < |s.active| && |s.tombs| < MAX_TOMBS && t in s.tombs && t.id != s.active[k].id
    ensures t in Retire(s, k, consumed).tombs
  {
    var others := (u: Tomb) => u.id != s.active[k].id;
    FilterMembers(s.tombs, others, t);
    FilterIsShorter(s.tombs, others);
  }

  lemma AbsentId(active: seq<Entry>, id: string)
    requires IndexOf(active, id) == |active|
    ensures forall e :: e in active ==> e.id != id
  {
  }

  // ---------------------------------------------------------------- what the verdicts mean

  /** Some active entry of this key, issued to this owner, that satisfies the rest. */
  ghost predicate Active(s: State, owner: nat, prepared: Prepared, equal: bool, consumed: bool) {
    exists e :: e in s.active && e.id == prepared.id && e.owner == owner &&
      (e.public == prepared <==> equal) && e.consumed == consumed
  }

  /** No active entry has this key, and this owner's tombstone does. */
  ghost predicate Retired(s: State, owner: nat, id: string, consumed: bool) {
    (forall e :: e in s.active ==> e.id != id) &&
    exists t :: t in s.tombs && t.id == id && t.owner == owner && t.consumed == consumed
  }

  /** The first region passes exactly a live, owned, equal and unconsumed preparation, and
      names each other case for what it is. */
  lemma CheckMeans(s: State, owner: nat, prepared: Prepared)
    requires Sound(s)
    ensures Check(s, owner, prepared) == Passed <==> Active(s, owner, prepared, true, false)
    ensures Check(s, owner, prepared) == Tampered <==>
              Active(s, owner, prepared, false, false) || Active(s, owner, prepared, false, true)
    ensures Check(s, owner, prepared) == Consumed <==>
              Active(s, owner, prepared, true, true) || Retired(s, owner, prepared.id, true)
    ensures Check(s, owner, prepared) == Stale <==> Retired(s, owner, prepared.id, false)
  {
    hide SerialOf;
    hide First;
    FoundOnce(s, prepared.id);
  }

  /** The second region accepts exactly what the first one passes, and reports whatever has
      changed since as stale or consumed. */
  lemma RecheckMeans(s: State, owner: nat, prepared: Prepared)
    requires Sound(s)
    ensures Recheck(s, owner, prepared) == Passed <==> Active(s, owner, prepared, true, false)
    ensures Recheck(s, owner, prepared) == Consumed <==>
              Active(s, owner, prepared, true, true) || Retired(s, owner, prepared.id, true)
    ensures Recheck(s, owner, prepared) in {Passed, Consumed, Stale}
  {
    hide SerialOf;
    hide First;
    FoundOnce(s, prepared.id);
  }

  /** A finished preparation is never accepted again: as long as its owner lives, presenting
      it is answered as consumed. */
  lemma FinishedIsConsumed(s: State, dead: set<nat>, e: Entry, prepared: Prepared)
    requires Sound(s) && e in s.active && e.owner !in dead && prepared.id == e.id
    ensures Check(Finish(s, dead, e.id), e.owner, prepared) == Consumed
    ensures Recheck(Finish(s, dead, e.id), e.owner, prepared) == Consumed
  {
    hide SerialOf;
    hide Filter;
    hide Pairwise;
    hide Check;
    hide Recheck;
    hide Retire;
    IndexOfEntry(s, e);
    var k := IndexOf(s.active, e.id);
    FinishIsSound(s, dead, e.id);
    RetireIsSound(s, k, true);
    var retired, tomb := Retire(s, k, true), Tomb(e.id, e.owner, true);
    var alive := (t: Tomb) => t.owner !in dead;
    FilterMembers(retired.tombs, alive, tomb);
    FilterIsShorter(retired.tombs, alive);
    assert tomb in Finish(s, dead, e.id).tombs;
    CheckMeans(Finish(s, dead, e.id), e.owner, prepared);
    RecheckMeans(Finish(s, dead, e.id), e.owner, prepared);
  }

  /** A key names at most one entry and at most one tombstone, and lookup finds it. */
  lemma FoundOnce(s: State, id: string)
    requires Sound(s)
    ensures var k := IndexOf(s.active, id);
            forall e :: e in s.active && e.id == id ==> k < |s.active| && e == s.active[k]
    ensures var k := TombOf(s.tombs, id);
            forall t :: t in s.tombs && t.id == id ==> k < |s.tombs| && t == s.tombs[k]
  {
    hide SerialOf;
    hide First;
    forall e | e in s.active && e.id == id
      ensures IndexOf(s.active, id) < |s.active| && e == s.active[IndexOf(s.active, id)]
    {
      IndexOfEntry(s, e);
    }
    forall t | t in s.tombs && t.id == id
      ensures TombOf(s.tombs, id) < |s.tombs| && t == s.tombs[TombOf(s.tombs, id)]
    {
      var i :| 0 <= i < |s.tombs| && s.tombs[i] == t;
      var k := TombOf(s.tombs, id);
      OneTomb(s.tombs, i, k);
    }
  }

  lemma OneTomb(tombs: seq<Tomb>, i: nat, j: nat)
    requires i < |tombs| && j < |tombs| && Pairwise(tombs, Apart)
    ensures tombs[i].id == tombs[j].id ==> i == j
  {
    assert i < j ==> Apart(tombs[i], tombs[j]);
    assert j < i ==> Apart(tombs[j], tombs[i]);
  }

  // ---------------------------------------------------------------- the registry itself

  /** The two maps changed in place; every method is one region under the lock. */
  class PreparationRegistry {
    var active: seq<Entry>
    var tombs: seq<Tomb>
    var serial: nat

    function Value(): State
      reads this
    {
      State(active, tombs, serial)
    }

    constructor ()
      ensures Value() == State([], [], 0)
    {
      active, tombs, serial := [], [], 0;
    }

    method TrimTombstones()
      modifies this`tombs
      ensures tombs == Trim(old(tombs))
    {
      var dropped := 0;
      while |tombs| > MAX_TOMBS
        invariant 0 <= dropped <= |old(tombs)| && tombs == old(tombs)[dropped..]
        invariant dropped > 0 ==> |tombs| >= MAX_TOMBS
      {
        tombs := tombs[1..];
        dropped := dropped + 1;
      }
    }

    method AddTombstone(tomb: Tomb)
      modifies this`tombs
      ensures tombs == AddTomb(old(tombs), tomb)
    {
      var others := [];
      var keep := (t: Tomb) => t.id != tomb.id;
      for i := 0 to |tombs|
        invariant others == Filter(tombs[..i], keep)
      {
        assert tombs[..i + 1][..i] == tombs[..i];
        if tombs[i].id != tomb.id {
          others := others + [tombs[i]];
        }
      }
      assert tombs[..|tombs|] == tombs;
      tombs := others + [tomb];
      TrimTombstones();
    }

    method RetireAt(k: nat, consumed: bool)
      requires k < |active|
      modifies this`active, this`tombs
      ensures Value() == Retire(old(Value()), k, consumed)
    {
      var entry := active[k];
      active := active[..k] + active[k + 1..];
      AddTombstone(Tomb(entry.id, entry.owner, consumed));
    }

    method ReclaimDead(dead: set<nat>)
      modifies this`active, this`tombs
      ensures Value() == Reclaim(old(Value()), dead)
    {
      var keepEntry := (e: Entry) => e.owner !in dead || e.executing;
      var keepTomb := (t: Tomb) => t.owner !in dead;
      var living := [];
      for i := 0 to |active|
        invariant living == Filter(active[..i], keepEntry)
      {
        assert active[..i + 1][..i] == active[..i];
        if active[i].owner !in dead || active[i].executing {
          living := living + [active[i]];
        }
      }
      assert active[..|active|] == active;
      var standing := [];
      for i := 0 to |tombs|
        invariant standing == Filter(tombs[..i], keepTomb)
      {
        assert tombs[..i + 1][..i] == tombs[..i];
        if tombs[i].owner !in dead {
          standing := standing + [tombs[i]];
        }
      }
      assert tombs[..|tombs|] == tombs;
      active, tombs := living, standing;
    }

    method MakeActiveRoom(dead: set<nat>) returns (ok: bool)
      modifies this`active, this`tombs
      ensures (Value(), ok) == MakeRoom(old(Value()), dead)
    {
      hide First;
      hide FirstIdle;
      ReclaimDead(dead);
      while |active| >= MAX_ACTIVE
        invariant Shrink(Value()) == MakeRoom(old(Value()), dead) && serial == old(serial)
        decreases |active|
      {
        var k := 0;
        while k < |active| && active[k].executing
          invariant 0 <= k <= |active|
          invariant forall i :: 0 <= i < k ==> active[i].executing
        {
          k := k + 1;
        }
        OldestIdle(active, k);
        if k == |active| {
          return false;
        }
        RetireAt(k, active[k].consumed);
      }
      return true;
    }

    method RegisterPreparation(dead: set<nat>, owner: nat, public: Prepared, intent: string)
      returns (answer: Result<Prepared, Refusal>)
      modifies this
      ensures (Value(), answer) == Register(old(Value()), dead, owner, public, intent)
    {
      var ok := MakeActiveRoom(dead);
      if !ok {
        return Err(Busy);
      }
      var issued := public.(id := IssuedId(public.id, serial));
      serial := serial + 1;
      if Taken(Value(), issued.id) {
        return Err(Collision);
      }
      active := active + [Entry(issued.id, owner, issued, intent, false, false)];
      return Ok(issued);
    }

    method CheckPreparation(dead: set<nat>, owner: nat, prepared: Prepared) returns (verdict: Verdict)
      modifies this`active, this`tombs
      ensures Value() == Reclaim(old(Value()), dead) && verdict == Check(Value(), owner, prepared)
      ensures Sound(old(Value())) ==> (verdict == Passed <==> Active(Value(), owner, prepared, true, false))
    {
      hide Check;
      hide Active;
      hide Sound;
      if Sound(Value()) {
        ReclaimIsSound(Value(), dead);
        CheckMeans(Reclaim(Value(), dead), owner, prepared);
      }
      ReclaimDead(dead);
      return Check(Value(), owner, prepared);
    }

    method AcceptPreparation(dead: set<nat>, owner: nat, prepared: Prepared) returns (verdict: Verdict, intent: string)
      modifies this`active, this`tombs
      ensures verdict == Recheck(Reclaim(old(Value()), dead), owner, prepared)
      ensures verdict != Passed ==> Value() == Reclaim(old(Value()), dead)
      ensures verdict == Passed ==>
                var s := Reclaim(old(Value()), dead);
                && Value() == Accept(s, prepared.id)
                && IndexOf(s.active, prepared.id) < |s.active|
                && intent == s.active[IndexOf(s.active, prepared.id)].intent
      ensures Sound(old(Value())) ==>
                (verdict == Passed <==> Active(Reclaim(old(Value()), dead), owner, prepared, true, false))
    {
      hide Active;
      hide Sound;
      if Sound(Value()) {
        ReclaimIsSound(Value(), dead);
        RecheckMeans(Reclaim(Value(), dead), owner, prepared);
      }
      ReclaimDead(dead);
      verdict, intent := Recheck(Value(), owner, prepared), "";
      if verdict == Passed {
        var k := IndexOf(active, prepared.id);
        intent := active[k].intent;
        active := active[k := active[k].(consumed := true, executing := true)];
      }
    }

    method FinishAccepted(dead: set<nat>, id: string)
      modifies this`active, this`tombs
      ensures Value() == Finish(old(Value()), dead, id)
    {
      var k := IndexOf(active, id);
      if k < |active| {
        RetireAt(k, true);
      }
      ReclaimDead(dead);
      TrimTombstones();
    }
  }
}
