/**
 * The open-addressed lock table: groups of sixteen control bytes, probed group by group, with
 * tombstones for removed entries. The table refines a map from locked objects to lock entries.
 */
module LockTable {
  import opened Options

  const GROUP_SIZE: nat := 16
  const GROUPS: nat := 4096
  const CAPACITY: nat := GROUP_SIZE * GROUPS
  const MAX_OCCUPANCY: nat := CAPACITY * 3 / 4

  const EMPTY: nat := 0xFF
  const DELETED: nat := 0x80

  type Ptr = nat

  datatype Entry = Entry(obj: Ptr, hash56: nat, holder: nat)

  function H2(hash56: nat): nat {
    hash56 % 128
  }

  /** The group probed at step `j` for this hash. */
  function GroupAt(hash56: nat, j: nat): (g: nat)
    ensures g < GROUPS
  {
    (hash56 / 128 + j) % GROUPS
  }

  /** Of a hash the low seven bits go into the control byte, and the next twelve choose the first group. */
  lemma HashBits(a: nat, b: nat)
    ensures H2(a) == H2(b) && GroupAt(a, 0) == GroupAt(b, 0) <==> a % (128 * GROUPS) == b % (128 * GROUPS)
  {
    LowBits(a);
    LowBits(b);
  }

  lemma LowBits(a: nat)
    ensures a % (128 * GROUPS) == GroupAt(a, 0) * 128 + H2(a)
  {
    var q := a / 128;
    assert a == q * 128 + H2(a) && q == q / GROUPS * GROUPS + GroupAt(a, 0);
    assert a == q / GROUPS * (128 * GROUPS) + (GroupAt(a, 0) * 128 + H2(a));
  }

  /** A step of the probe sequence and a slot within the group it reaches. */
  datatype Place = Place(step: nat, bit: nat)

  function SlotOf(hash56: nat, p: Place): (s: nat)
    requires p.bit < GROUP_SIZE
    ensures s < CAPACITY
  {
    GroupAt(hash56, p.step) * GROUP_SIZE + p.bit
  }

  predicate Live(c: nat) {
    c < DELETED
  }

  function CountLive(cs: seq<nat>): nat {
    if cs == [] then 0 else (if Live(cs[0]) then 1 else 0) + CountLive(cs[1..])
  }

  function CountDeleted(cs: seq<nat>): nat {
    if cs == [] then 0 else (if cs[0] == DELETED then 1 else 0) + CountDeleted(cs[1..])
  }

  lemma {:induction false} CountUpdate(cs: seq<nat>, s: nat, c: nat)
    requires s < |cs|
    ensures CountLive(cs[s := c]) + (if Live(cs[s]) then 1 else 0) == CountLive(cs) + (if Live(c) then 1 else 0)
    ensures CountDeleted(cs[s := c]) + (if cs[s] == DELETED then 1 else 0)
         == CountDeleted(cs) + (if c == DELETED then 1 else 0)
  {
    if s == 0 {
      assert cs[s := c][1..] == cs[1..];
    } else {
      CountUpdate(cs[1..], s - 1, c);
      assert cs[s := c][1..] == cs[1..][s - 1 := c];
    }
  }

  lemma {:induction false} CountAllEmpty(cs: seq<nat>)
    requires forall s :: 0 <= s < |cs| ==> cs[s] == EMPTY
    ensures CountLive(cs) == 0 && CountDeleted(cs) == 0
  {
    if cs != [] { CountAllEmpty(cs[1..]); }
  }

  /** Fewer live slots than slots: some slot is free. */
  lemma {:induction false} FreeSlotExists(cs: seq<nat>) returns (s: nat)
    requires CountLive(cs) < |cs|
    ensures s < |cs| && !Live(cs[s])
  {
    if !Live(cs[0]) {
      s := 0;
    } else {
      s := FreeSlotExists(cs[1..]);
      s := s + 1;
    }
  }

  /** The probe sequence visits every group. */
  lemma ProbeCovers(hash56: nat, s: nat) returns (p: Place)
    requires s < CAPACITY
    ensures p.step < GROUPS && p.bit < GROUP_SIZE && SlotOf(hash56, p) == s
  {
    var g := s / GROUP_SIZE;
    var start := (hash56 / 128) % GROUPS;
    p := Place(if g >= start then g - start else g + GROUPS - start, s % GROUP_SIZE);
  }

  // ---------------------------------------------------------------- refinement relation

  /** No group probed before step `j` has this control byte. */
  ghost predicate Absent(ctrl: seq<nat>, hash56: nat, j: nat, byte: nat)
    requires |ctrl| == CAPACITY
  {
    forall i, bit :: 0 <= i < j && 0 <= bit < GROUP_SIZE ==> ctrl[SlotOf(hash56, Place(i, bit))] != byte
  }

  /** A search for this hash goes on at least to step `j`: no group before it has a never-used slot. */
  ghost predicate Reachable(ctrl: seq<nat>, hash56: nat, j: nat)
    requires |ctrl| == CAPACITY
  {
    Absent(ctrl, hash56, j, EMPTY)
  }

  lemma AbsentNext(ctrl: seq<nat>, hash56: nat, j: nat, byte: nat)
    requires |ctrl| == CAPACITY && Absent(ctrl, hash56, j, byte)
    requires var base := GroupAt(hash56, j) * GROUP_SIZE;
      forall s :: base <= s < base + GROUP_SIZE ==> ctrl[s] != byte
    ensures Absent(ctrl, hash56, j + 1, byte)
  {
  }

  ghost predicate EntryOk(hash: Ptr -> nat, ctrl: seq<nat>, entries: seq<Entry>, obj: Ptr, entry: Entry, p: Place)
    requires |ctrl| == |entries| == CAPACITY
  {
    && p.step < GROUPS && p.bit < GROUP_SIZE
    && entry.obj == obj && entry.hash56 == hash(obj)
    && entries[SlotOf(hash(obj), p)] == entry
    && ctrl[SlotOf(hash(obj), p)] == H2(hash(obj))
    && Reachable(ctrl, hash(obj), p.step)
  }

  ghost predicate SlotOk(hash: Ptr -> nat, entries: seq<Entry>, contents: map<Ptr, Entry>, places: map<Ptr, Place>,
                         s: nat)
    requires s < |entries|
  {
    var obj := entries[s].obj;
    obj in contents && obj in places && places[obj].bit < GROUP_SIZE && SlotOf(hash(obj), places[obj]) == s
  }

  ghost predicate Refines(hash: Ptr -> nat, ctrl: seq<nat>, entries: seq<Entry>, contents: map<Ptr, Entry>,
                          places: map<Ptr, Place>) {
    && |ctrl| == |entries| == CAPACITY
    && (forall s :: 0 <= s < CAPACITY ==> ctrl[s] < DELETED || ctrl[s] == DELETED || ctrl[s] == EMPTY)
    && (forall s :: 0 <= s < CAPACITY && Live(ctrl[s]) ==> SlotOk(hash, entries, contents, places, s))
    && (forall o :: o in contents ==> o in places && EntryOk(hash, ctrl, entries, o, contents[o], places[o]))
  }

  /** Writing a slot that is not the entry's leaves the entry where it was, if the byte is not EMPTY. */
  lemma EntryStays(hash: Ptr -> nat, ctrl: seq<nat>, entries: seq<Entry>, obj: Ptr, entry: Entry, p: Place,
                   s: nat, byte: nat, other: Entry)
    requires |ctrl| == |entries| == CAPACITY && EntryOk(hash, ctrl, entries, obj, entry, p)
    requires s < CAPACITY && s != SlotOf(hash(obj), p) && byte != EMPTY
    ensures EntryOk(hash, ctrl[s := byte], entries[s := other], obj, entry, p)
  {
  }

  lemma InsertRefines(hash: Ptr -> nat, ctrl: seq<nat>, entries: seq<Entry>, contents: map<Ptr, Entry>,
                      places: map<Ptr, Place>, p: Place, entry: Entry)
    requires Refines(hash, ctrl, entries, contents, places)
    requires entry.obj !in contents && entry.hash56 == hash(entry.obj) && p.step < GROUPS && p.bit < GROUP_SIZE
    requires !Live(ctrl[SlotOf(hash(entry.obj), p)]) && Reachable(ctrl, hash(entry.obj), p.step)
    ensures var s := SlotOf(hash(entry.obj), p);
      Refines(hash, ctrl[s := H2(hash(entry.obj))], entries[s := entry], contents[entry.obj := entry],
              places[entry.obj := p])
  {
    var s := SlotOf(hash(entry.obj), p);
    var ctrl', entries' := ctrl[s := H2(hash(entry.obj))], entries[s := entry];
    assert EntryOk(hash, ctrl', entries', entry.obj, entry, p);
    forall o | o in contents ensures EntryOk(hash, ctrl', entries', o, contents[o], places[o]) {
      assert EntryOk(hash, ctrl, entries, o, contents[o], places[o]);
      EntryStays(hash, ctrl, entries, o, contents[o], places[o], s, H2(hash(entry.obj)), entry);
    }
    hide EntryOk;
    forall t | 0 <= t < CAPACITY && Live(ctrl'[t])
      ensures SlotOk(hash, entries', contents[entry.obj := entry], places[entry.obj := p], t)
    {
      if t != s { assert SlotOk(hash, entries, contents, places, t); }
    }
  }

  lemma RemoveRefines(hash: Ptr -> nat, ctrl: seq<nat>, entries: seq<Entry>, contents: map<Ptr, Entry>,
                      places: map<Ptr, Place>, obj: Ptr, blank: Entry)
    requires Refines(hash, ctrl, entries, contents, places) && obj in contents
    ensures places[obj].bit < GROUP_SIZE
    ensures var s := SlotOf(hash(obj), places[obj]);
      Refines(hash, ctrl[s := DELETED], entries[s := blank], contents - {obj}, places)
  {
    assert EntryOk(hash, ctrl, entries, obj, contents[obj], places[obj]);
    var s := SlotOf(hash(obj), places[obj]);
    var ctrl', entries' := ctrl[s := DELETED], entries[s := blank];
    forall o | o in contents && o != obj ensures EntryOk(hash, ctrl', entries', o, contents[o], places[o]) {
      assert EntryOk(hash, ctrl, entries, o, contents[o], places[o]);
    }
  }

  /** Another object of the same key takes over the entry: the hash, and so the slot, is the same. */
  lemma RetargetRefines(hash: Ptr -> nat, ctrl: seq<nat>, entries: seq<Entry>, contents: map<Ptr, Entry>,
                        places: map<Ptr, Place>, obj: Ptr, obj': Ptr)
    requires Refines(hash, ctrl, entries, contents, places) && obj in contents
    requires hash(obj') == hash(obj) && (obj' == obj || obj' !in contents)
    ensures places[obj].bit < GROUP_SIZE
    ensures var s := SlotOf(hash(obj), places[obj]);
      var entry := contents[obj].(obj := obj');
      Refines(hash, ctrl, entries[s := entry], (contents - {obj})[obj' := entry], places[obj' := places[obj]])
  {
    assert EntryOk(hash, ctrl, entries, obj, contents[obj], places[obj]);
    var s := SlotOf(hash(obj), places[obj]);
    var entries' := entries[s := contents[obj].(obj := obj')];
    forall o | o in contents && o != obj ensures EntryOk(hash, ctrl, entries', o, contents[o], places[o]) {
      assert EntryOk(hash, ctrl, entries, o, contents[o], places[o]);
    }
  }

  /** Control bytes, entries and the two counters together stand for `contents`. */
  ghost predicate Inv(hash: Ptr -> nat, ctrl: seq<nat>, entries: seq<Entry>, count: nat, deletedCount: nat,
                      contents: map<Ptr, Entry>, places: map<Ptr, Place>) {
    && Refines(hash, ctrl, entries, contents, places)
    && count == CountLive(ctrl) == |contents|
    && deletedCount == CountDeleted(ctrl)
  }

  lemma InsertInv(hash: Ptr -> nat, ctrl: seq<nat>, entries: seq<Entry>, count: nat, deletedCount: nat,
                  contents: map<Ptr, Entry>, places: map<Ptr, Place>, p: Place, entry: Entry)
    requires Inv(hash, ctrl, entries, count, deletedCount, contents, places)
    requires entry.obj !in contents && entry.hash56 == hash(entry.obj) && p.step < GROUPS && p.bit < GROUP_SIZE
    requires |ctrl| == CAPACITY
    requires !Live(ctrl[SlotOf(hash(entry.obj), p)]) && Reachable(ctrl, hash(entry.obj), p.step)
    ensures var s := SlotOf(hash(entry.obj), p);
      && s < |entries| && (ctrl[s] == DELETED ==> deletedCount > 0)
      && Inv(hash, ctrl[s := H2(hash(entry.obj))], entries[s := entry], count + 1,
             if ctrl[s] == DELETED then deletedCount - 1 else deletedCount,
             contents[entry.obj := entry], places[entry.obj := p])
  {
    var s := SlotOf(hash(entry.obj), p);
    InsertRefines(hash, ctrl, entries, contents, places, p, entry);
    CountUpdate(ctrl, s, H2(hash(entry.obj)));
  }

  lemma LiveAt(hash: Ptr -> nat, ctrl: seq<nat>, entries: seq<Entry>, contents: map<Ptr, Entry>,
               places: map<Ptr, Place>, obj: Ptr)
    requires Refines(hash, ctrl, entries, contents, places) && obj in contents
    ensures obj in places && places[obj].bit < GROUP_SIZE && |ctrl| == |entries| == CAPACITY
    ensures Live(ctrl[SlotOf(hash(obj), places[obj])])
  {
    assert EntryOk(hash, ctrl, entries, obj, contents[obj], places[obj]);
  }

  lemma MinusOne(contents: map<Ptr, Entry>, obj: Ptr)
    requires obj in contents
    ensures |contents - {obj}| == |contents| - 1
  {
    assert contents == (contents - {obj})[obj := contents[obj]];
  }

  lemma RemoveInv(hash: Ptr -> nat, ctrl: seq<nat>, entries: seq<Entry>, count: nat, deletedCount: nat,
                  contents: map<Ptr, Entry>, places: map<Ptr, Place>, obj: Ptr, blank: Entry)
    requires Inv(hash, ctrl, entries, count, deletedCount, contents, places) && obj in contents
    ensures obj in places && places[obj].bit < GROUP_SIZE && count > 0
    ensures var s := SlotOf(hash(obj), places[obj]);
      && |ctrl| == |entries| == CAPACITY
      && Inv(hash, ctrl[s := DELETED], entries[s := blank], count - 1, deletedCount + 1, contents - {obj}, places)
  {
    hide Refines;
    LiveAt(hash, ctrl, entries, contents, places, obj);
    MinusOne(contents, obj);
    CountUpdate(ctrl, SlotOf(hash(obj), places[obj]), DELETED);
    RemoveRefines(hash, ctrl, entries, contents, places, obj, blank);
  }

  lemma ResetInv(hash: Ptr -> nat, ctrl: seq<nat>, ctrl': seq<nat>, entries: seq<Entry>, deletedCount: nat,
                 contents: map<Ptr, Entry>, places: map<Ptr, Place>)
    requires Inv(hash, ctrl, entries, 0, deletedCount, contents, places)
    requires |ctrl'| == CAPACITY && forall s :: 0 <= s < |ctrl'| ==> ctrl'[s] == EMPTY
    ensures Inv(hash, ctrl', entries, 0, 0, contents, places)
  {
    CountAllEmpty(ctrl');
  }

  /** A table that is not full has a slot for any hash, before or at the end of its probe sequence. */
  lemma RoomSomewhere(hash: Ptr -> nat, ctrl: seq<nat>, entries: seq<Entry>, count: nat, deletedCount: nat,
                      contents: map<Ptr, Entry>, places: map<Ptr, Place>, hash56: nat)
    returns (p: Place)
    requires Inv(hash, ctrl, entries, count, deletedCount, contents, places) && count < CAPACITY
    ensures |ctrl| == CAPACITY && p.step < GROUPS && p.bit < GROUP_SIZE
    ensures ctrl[SlotOf(hash56, p)] == DELETED || ctrl[SlotOf(hash56, p)] == EMPTY
  {
    var s := FreeSlotExists(ctrl);
    p := ProbeCovers(hash56, s);
  }

  lemma EntryFound(hash: Ptr -> nat, ctrl: seq<nat>, entries: seq<Entry>, contents: map<Ptr, Entry>,
                   places: map<Ptr, Place>, obj: Ptr, step: nat, bit: nat)
    requires Refines(hash, ctrl, entries, contents, places) && step < GROUPS && bit < GROUP_SIZE
    requires var s := GroupAt(hash(obj), step) * GROUP_SIZE + bit; ctrl[s] == H2(hash(obj)) && entries[s].obj == obj
    ensures obj in contents && obj in places && places[obj].bit < GROUP_SIZE
    ensures var s := GroupAt(hash(obj), step) * GROUP_SIZE + bit;
      SlotOf(hash(obj), places[obj]) == s && contents[obj] == entries[s]
  {
    var s := SlotOf(hash(obj), Place(step, bit));
    assert SlotOk(hash, entries, contents, places, s);
    assert EntryOk(hash, ctrl, entries, obj, contents[obj], places[obj]);
  }

  predicate NoMatch(ctrl: seq<nat>, entries: seq<Entry>, from: nat, to: nat, byte: nat, obj: Ptr)
    requires from <= to <= |ctrl| == |entries|
  {
    forall s :: from <= s < to ==> !(ctrl[s] == byte && entries[s].obj == obj)
  }

  /** A group without the object, but with a never-used slot, ends the search. */
  lemma EntryNotFurther(hash: Ptr -> nat, ctrl: seq<nat>, entries: seq<Entry>, contents: map<Ptr, Entry>,
                        places: map<Ptr, Place>, obj: Ptr, step: nat, empty: Option<nat>)
    requires Refines(hash, ctrl, entries, contents, places) && step < GROUPS
    requires obj in contents ==> obj in places && places[obj].step >= step
    requires var base := GroupAt(hash(obj), step) * GROUP_SIZE;
      && NoMatch(ctrl, entries, base, base + GROUP_SIZE, H2(hash(obj)), obj)
      && ByteScan(ctrl, base, EMPTY, empty)
    ensures obj in contents ==> places[obj].step > step && empty.None?
  {
    assert empty.Some? ==> ctrl[SlotOf(hash(obj), Place(step, empty.value))] == EMPTY;
    if obj in contents {
      assert EntryOk(hash, ctrl, entries, obj, contents[obj], places[obj]);
    }
  }

  lemma InvPlaces(hash: Ptr -> nat, ctrl: seq<nat>, entries: seq<Entry>, count: nat, deletedCount: nat,
                  contents: map<Ptr, Entry>, places: map<Ptr, Place>, obj: Ptr)
    requires Inv(hash, ctrl, entries, count, deletedCount, contents, places)
    ensures Refines(hash, ctrl, entries, contents, places)
    ensures obj in contents ==> obj in places && places[obj].step < GROUPS
  {
  }

  lemma NextGroup(hash56: nat, j: nat)
    ensures GroupAt(hash56, j + 1) == (GroupAt(hash56, j) + 1) % GROUPS
  {
  }

  /** If no never-used slot ends the probe sequence of a table below its limit, a tombstone was passed. */
  lemma TombstonePassed(hash: Ptr -> nat, ctrl: seq<nat>, entries: seq<Entry>, count: nat, deletedCount: nat,
                        contents: map<Ptr, Entry>, places: map<Ptr, Place>, hash56: nat)
    requires Inv(hash, ctrl, entries, count, deletedCount, contents, places) && count < CAPACITY
    requires |ctrl| == CAPACITY && Reachable(ctrl, hash56, GROUPS)
    ensures !Absent(ctrl, hash56, GROUPS, DELETED)
  {
    var p := RoomSomewhere(hash, ctrl, entries, count, deletedCount, contents, places, hash56);
    assert ctrl[SlotOf(hash56, Place(p.step, p.bit))] == ctrl[SlotOf(hash56, p)];
  }

  lemma AbsentStart(ctrl: seq<nat>, hash56: nat)
    requires |ctrl| == CAPACITY
    ensures Absent(ctrl, hash56, 0, DELETED) && Reachable(ctrl, hash56, 0)
  {
  }

  /** A slot that is not live, on the probe sequence of this hash and reachable along it. */
  ghost predicate FreeAt(ctrl: seq<nat>, hash56: nat, p: Place, slot: nat)
    requires |ctrl| == CAPACITY
  {
    && p.step < GROUPS && p.bit < GROUP_SIZE && slot == SlotOf(hash56, p)
    && !Live(ctrl[slot]) && Reachable(ctrl, hash56, p.step)
  }

  lemma FreeHere(ctrl: seq<nat>, hash56: nat, step: nat, bit: nat)
    requires |ctrl| == CAPACITY && step < GROUPS && bit < GROUP_SIZE && Reachable(ctrl, hash56, step)
    requires !Live(ctrl[GroupAt(hash56, step) * GROUP_SIZE + bit])
    ensures FreeAt(ctrl, hash56, Place(step, bit), GroupAt(hash56, step) * GROUP_SIZE + bit)
  {
  }

  /** The first place on the probe sequence of this hash with this control byte. */
  ghost predicate FirstOf(ctrl: seq<nat>, hash56: nat, p: Place, byte: nat)
    requires |ctrl| == CAPACITY
  {
    && p.bit < GROUP_SIZE && ctrl[SlotOf(hash56, p)] == byte && Absent(ctrl, hash56, p.step, byte)
    && forall bit :: 0 <= bit < p.bit ==> ctrl[SlotOf(hash56, Place(p.step, bit))] != byte
  }

  /** The first tombstone, or without one up to its group the first never-used slot. */
  ghost predicate Chosen(ctrl: seq<nat>, hash56: nat, p: Place)
    requires |ctrl| == CAPACITY
  {
    FirstOf(ctrl, hash56, p, DELETED) || (FirstOf(ctrl, hash56, p, EMPTY) && Absent(ctrl, hash56, p.step + 1, DELETED))
  }

  /** What an insertion knows before step `j`: no never-used slot, and the first tombstone if any. */
  ghost predicate Probing(ctrl: seq<nat>, hash56: nat, j: nat, tombstone: Option<nat>, spot: Place)
    requires |ctrl| == CAPACITY
  {
    && Reachable(ctrl, hash56, j)
    && (tombstone.None? ==> Absent(ctrl, hash56, j, DELETED))
    && (tombstone.Some? ==> FreeAt(ctrl, hash56, spot, tombstone.value) && FirstOf(ctrl, hash56, spot, DELETED))
  }

  ghost predicate ByteScan(ctrl: seq<nat>, base: nat, byte: nat, r: Option<nat>)
    requires base + GROUP_SIZE <= |ctrl|
  {
    match r
    case Some(bit) =>
      && bit < GROUP_SIZE && ctrl[base + bit] == byte
      && forall s :: base <= s < base + bit ==> ctrl[s] != byte
    case None => forall s :: base <= s < base + GROUP_SIZE ==> ctrl[s] != byte
  }

  lemma TombstoneStep(ctrl: seq<nat>, hash56: nat, j: nat, tombstone: Option<nat>, spot: Place, deleted: Option<nat>)
    requires |ctrl| == CAPACITY && j < GROUPS && Probing(ctrl, hash56, j, tombstone, spot)
    requires ByteScan(ctrl, GroupAt(hash56, j) * GROUP_SIZE, DELETED, deleted)
    ensures tombstone.None? && deleted.Some? ==>
      && FreeAt(ctrl, hash56, Place(j, deleted.value), GroupAt(hash56, j) * GROUP_SIZE + deleted.value)
      && FirstOf(ctrl, hash56, Place(j, deleted.value), DELETED)
    ensures tombstone.None? && deleted.None? ==> Absent(ctrl, hash56, j + 1, DELETED)
  {
    if tombstone.None? {
      match deleted
      case Some(bit) => FreeHere(ctrl, hash56, j, bit);
      case None => AbsentNext(ctrl, hash56, j, DELETED);
    }
  }

  lemma EmptyStep(ctrl: seq<nat>, hash56: nat, j: nat, empty: Option<nat>)
    requires |ctrl| == CAPACITY && j < GROUPS && Reachable(ctrl, hash56, j)
    requires ByteScan(ctrl, GroupAt(hash56, j) * GROUP_SIZE, EMPTY, empty)
    ensures match empty
      case Some(bit) =>
        && FreeAt(ctrl, hash56, Place(j, bit), GroupAt(hash56, j) * GROUP_SIZE + bit)
        && FirstOf(ctrl, hash56, Place(j, bit), EMPTY)
      case None => Reachable(ctrl, hash56, j + 1)
  {
    match empty
    case Some(bit) => FreeHere(ctrl, hash56, j, bit);
    case None => AbsentNext(ctrl, hash56, j, EMPTY);
  }

  lemma RetargetInv(hash: Ptr -> nat, ctrl: seq<nat>, entries: seq<Entry>, count: nat, deletedCount: nat,
                    contents: map<Ptr, Entry>, places: map<Ptr, Place>, obj: Ptr, obj': Ptr)
    requires Inv(hash, ctrl, entries, count, deletedCount, contents, places) && obj in contents
    requires hash(obj') == hash(obj) && (obj' == obj || obj' !in contents)
    ensures obj in places && places[obj].bit < GROUP_SIZE && |entries| == CAPACITY
    ensures var s := SlotOf(hash(obj), places[obj]);
      var entry := contents[obj].(obj := obj');
      Inv(hash, ctrl, entries[s := entry], count, deletedCount, (contents - {obj})[obj' := entry],
          places[obj' := places[obj]])
  {
    hide Refines;
    LiveAt(hash, ctrl, entries, contents, places, obj);
    MinusOne(contents, obj);
    RetargetRefines(hash, ctrl, entries, contents, places, obj, obj');
  }

  lemma CountIs(hash: Ptr -> nat, ctrl: seq<nat>, entries: seq<Entry>, count: nat, deletedCount: nat,
                contents: map<Ptr, Entry>, places: map<Ptr, Place>)
    requires Inv(hash, ctrl, entries, count, deletedCount, contents, places)
    ensures count == |contents|
  {
  }

  datatype Probe = Occupied(entry: Entry) | Free(slot: nat)

  datatype InsertResult = Created | Existing(entry: Entry) | Full | NoMemory

  class Table {
    const hash: Ptr -> nat
    const ctrl: array<nat>
    const entries: array<Entry>
    var count: nat
    var deletedCount: nat

    ghost var contents: map<Ptr, Entry>
    ghost var places: map<Ptr, Place>

    ghost predicate Valid()
      reads this, ctrl, entries
    {
      && ctrl.Length == entries.Length == CAPACITY
      && Inv(hash, ctrl[..], entries[..], count, deletedCount, contents, places)
    }

    constructor (hash: Ptr -> nat)
      ensures Valid() && contents == map[] && this.hash == hash && fresh(ctrl) && fresh(entries)
    {
      this.hash := hash;
      ctrl := new nat[CAPACITY](_ => EMPTY);
      entries := new Entry[CAPACITY](_ => Entry(0, 0, 0));
      count, deletedCount := 0, 0;
      contents, places := map[], map[];
      new;
      CountAllEmpty(ctrl[..]);
    }

    /** First slot of the group at `base` whose control byte is `byte`. */
    method FirstByte(base: nat, byte: nat) returns (r: Option<nat>)
      requires base + GROUP_SIZE <= ctrl.Length
      ensures ByteScan(ctrl[..], base, byte, r)
    {
      var bit := 0;
      while bit < GROUP_SIZE
        invariant bit <= GROUP_SIZE
        invariant forall s :: base <= s < base + bit ==> ctrl[s] != byte
      {
        if ctrl[base + bit] == byte {
          return Some(bit);
        }
        bit := bit + 1;
      }
      return None;
    }

    /** The slot of the group at `base` that holds `obj`, among those whose control byte is `byte`. */
    method MatchInGroup(base: nat, byte: nat, obj: Ptr) returns (r: Option<nat>)
      requires base + GROUP_SIZE <= ctrl.Length == entries.Length
      ensures r.Some? ==> r.value < GROUP_SIZE && ctrl[base + r.value] == byte && entries[base + r.value].obj == obj
      ensures r.None? ==> NoMatch(ctrl[..], entries[..], base, base + GROUP_SIZE, byte, obj)
    {
      var bit := 0;
      while bit < GROUP_SIZE
        invariant bit <= GROUP_SIZE
        invariant NoMatch(ctrl[..], entries[..], base, base + bit, byte, obj)
      {
        if ctrl[base + bit] == byte && entries[base + bit].obj == obj {
          return Some(bit);
        }
        bit := bit + 1;
      }
      return None;
    }

    /** The probe loop finds an object exactly when the table holds it. */
    method FindSlot(obj: Ptr) returns (r: Option<nat>)
      requires Valid()
      ensures r.Some? <==> obj in contents
      ensures r.Some? ==> obj in places && places[obj].bit < GROUP_SIZE && r.value == SlotOf(hash(obj), places[obj])
      ensures r.Some? ==> r.value < CAPACITY && entries[r.value] == contents[obj]
    {
      hide Inv, Refines, NoMatch, GroupAt, H2, ByteScan;
      var h2 := H2(hash(obj));
      var group := GroupAt(hash(obj), 0);
      var probe := 0;
      ghost var cs, es := ctrl[..], entries[..];
      InvPlaces(hash, cs, es, count, deletedCount, contents, places, obj);
      while probe < GROUPS
        invariant probe <= GROUPS && group == GroupAt(hash(obj), probe)
        invariant obj in contents ==> obj in places && places[obj].step >= probe
      {
        var base := group * GROUP_SIZE;
        var bit := MatchInGroup(base, h2, obj);
        if bit.Some? {
          EntryFound(hash, cs, es, contents, places, obj, probe, bit.value);
          return Some(base + bit.value);
        }
        var empty := FirstByte(base, EMPTY);
        EntryNotFurther(hash, cs, es, contents, places, obj, probe, empty);
        if empty.Some? {
          return None;
        }
        NextGroup(hash(obj), probe);
        group := (group + 1) % GROUPS;
        probe := probe + 1;
      }
      return None;
    }

    method Lookup(obj: Ptr) returns (r: Option<Entry>)
      requires Valid()
      ensures r == if obj in contents then Some(contents[obj]) else None
    {
      hide Inv;
      var s := FindSlot(obj);
      if s.None? {
        return None;
      }
      return Some(entries[s.value]);
    }

    /** Fills a slot that is not live; `granted` is whether the entry's group array could be allocated. */
    method InsertAt(ghost p: Place, slot: nat, obj: Ptr, holder: nat, granted: bool) returns (r: InsertResult)
      requires Valid() && obj !in contents
      requires FreeAt(ctrl[..], hash(obj), p, slot)
      modifies this, ctrl, entries
      ensures Valid() && r == if granted then Created else NoMemory
      ensures contents == if granted then old(contents)[obj := Entry(obj, hash(obj), holder)] else old(contents)
    {
      hide Inv, Reachable, SlotOf;
      if !granted {
        return NoMemory;
      }
      var entry := Entry(obj, hash(obj), holder);
      InsertInv(hash, ctrl[..], entries[..], count, deletedCount, contents, places, p, entry);
      ghost var cs, es := ctrl[..], entries[..];
      if ctrl[slot] == DELETED {
        deletedCount := deletedCount - 1;
      }
      ctrl[slot] := H2(hash(obj));
      entries[slot] := entry;
      count := count + 1;
      contents, places := contents[obj := entry], places[obj := p];
      assert ctrl[..] == cs[slot := H2(hash(obj))];
      assert entries[..] == es[slot := entry];
      return Created;
    }

    /** The slot an insertion takes: the first tombstone passed, or else the first never-used slot. */
    method ProbeInsert(obj: Ptr) returns (r: Probe, ghost spot: Place)
      requires Valid() && count < CAPACITY
      ensures r.Occupied? <==> obj in contents
      ensures r.Occupied? ==> r.entry == contents[obj]
      ensures r.Free? ==> FreeAt(ctrl[..], hash(obj), spot, r.slot) && Chosen(ctrl[..], hash(obj), spot)
    {
      hide Inv, Refines, NoMatch, GroupAt, H2, Absent, FreeAt, FirstOf, SlotOf, ByteScan;
      var h2 := H2(hash(obj));
      var group := GroupAt(hash(obj), 0);
      var tombstone: Option<nat> := None;
      ghost var cs, es := ctrl[..], entries[..];
      InvPlaces(hash, cs, es, count, deletedCount, contents, places, obj);
      AbsentStart(cs, hash(obj));
      spot := Place(0, 0);
      var probe := 0;
      while probe < GROUPS
        invariant probe <= GROUPS && group == GroupAt(hash(obj), probe)
        invariant obj in contents ==> obj in places && places[obj].step >= probe
        invariant Probing(cs, hash(obj), probe, tombstone, spot)
      {
        var base := group * GROUP_SIZE;
        var bit := MatchInGroup(base, h2, obj);
        if bit.Some? {
          EntryFound(hash, cs, es, contents, places, obj, probe, bit.value);
          return Occupied(entries[base + bit.value]), spot;
        }
        var deleted := FirstByte(base, DELETED);
        TombstoneStep(cs, hash(obj), probe, tombstone, spot, deleted);
        var empty := FirstByte(base, EMPTY);
        EmptyStep(cs, hash(obj), probe, empty);
        EntryNotFurther(hash, cs, es, contents, places, obj, probe, empty);
        if tombstone.None? && deleted.Some? {
          tombstone, spot := Some(base + deleted.value), Place(probe, deleted.value);
        }
        if empty.Some? {
          if tombstone.Some? {
            return Free(tombstone.value), spot;
          }
          return Free(base + empty.value), Place(probe, empty.value);
        }
        NextGroup(hash(obj), probe);
        group := (group + 1) % GROUPS;
        probe := probe + 1;
      }
      TombstonePassed(hash, cs, es, count, deletedCount, contents, places, hash(obj));
      return Free(tombstone.value), spot;
    }

    /** Insert. Below the occupancy limit only the allocator can refuse. */
    method Insert(obj: Ptr, holder: nat, granted: bool) returns (r: InsertResult)
      requires Valid()
      modifies this, ctrl, entries
      ensures Valid()
      ensures r == if old(count) >= MAX_OCCUPANCY then Full
                   else if obj in old(contents) then Existing(old(contents)[obj])
                   else if granted then Created else NoMemory
      ensures contents == if r.Created? then old(contents)[obj := Entry(obj, hash(obj), holder)] else old(contents)
    {
      hide Inv;
      if count >= MAX_OCCUPANCY {
        return Full;
      }
      var probe, spot := ProbeInsert(obj);
      if probe.Occupied? {
        return Existing(probe.entry);
      }
      r := InsertAt(spot, probe.slot, obj, holder, granted);
    }

    method Wipe()
      modifies ctrl
      ensures forall s :: 0 <= s < ctrl.Length ==> ctrl[s] == EMPTY
    {
      forall i | 0 <= i < ctrl.Length {
        ctrl[i] := EMPTY;
      }
    }

    /** Remove leaves a tombstone; the last removal wipes all of them. */
    method Remove(obj: Ptr)
      requires Valid()
      modifies this, ctrl, entries
      ensures Valid() && contents == old(contents) - {obj}
      ensures obj in old(contents) && contents == map[] ==> deletedCount == 0
    {
      hide Inv, Refines, SlotOf;
      var slot := FindSlot(obj);
      if slot.None? {
        assert contents - {obj} == contents;
        return;
      }
      ghost var cs, es := ctrl[..], entries[..];
      RemoveInv(hash, cs, es, count, deletedCount, contents, places, obj, Entry(0, 0, 0));
      entries[slot.value] := Entry(0, 0, 0);
      ctrl[slot.value] := DELETED;
      assert ctrl[..] == cs[slot.value := DELETED];
      assert entries[..] == es[slot.value := Entry(0, 0, 0)];
      count := count - 1;
      deletedCount := deletedCount + 1;
      contents := contents - {obj};
      CountIs(hash, ctrl[..], entries[..], count, deletedCount, contents, places);
      if count == 0 {
        cs := ctrl[..];
        Wipe();
        ResetInv(hash, cs, ctrl[..], entries[..], deletedCount, contents, places);
        deletedCount := 0;
      }
    }

    /** At commit the new object of the same key takes over the entry. */
    method UpdatePtr(obj: Ptr, obj': Ptr)
      requires Valid() && hash(obj') == hash(obj) && (obj' == obj || obj' !in contents)
      modifies this, entries
      ensures Valid() && ctrl[..] == old(ctrl[..]) && count == old(count)
      ensures contents == if obj in old(contents) then (old(contents) - {obj})[obj' := old(contents)[obj].(obj := obj')]
                          else old(contents)
    {
      hide Inv, Refines, SlotOf;
      var slot := FindSlot(obj);
      if slot.None? {
        return;
      }
      ghost var es := entries[..];
      RetargetInv(hash, ctrl[..], es, count, deletedCount, contents, places, obj, obj');
      entries[slot.value] := entries[slot.value].(obj := obj');
      contents, places := (contents - {obj})[obj' := contents[obj].(obj := obj')], places[obj' := places[obj]];
      assert entries[..] == es[slot.value := old(contents)[obj].(obj := obj')];
    }
  }
}
