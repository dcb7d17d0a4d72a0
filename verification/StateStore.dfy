/** The state store: one 32-bit value per id; a changing write is published on the event bus. */
module StateStore {
  import opened Words
  import opened EventBus

  const MAX_ENTRIES: nat := 256

  /** The store together with the bus its writes publish to. */
  datatype Store = Store(values: seq<i32>, dirty: seq<bool>, bus: Bus)
  {
    ghost predicate Valid() {
      |values| == |dirty| == MAX_ENTRIES && bus.Valid()
    }

    /** `state_get_int`, with 0 for an id out of range as every caller here presets it. */
    function Read(id: u16): i32 {
      if id < |values| then values[id] else 0
    }

    function Write(id: u16, v: i32): Store {
      if id >= |values| || id >= |dirty| || values[id] == v then this
      else Store(values[id := v], dirty[id := true], bus.Publish(Event(STATE_CHANGE, id, v)))
    }
  }

  lemma WriteReadBack(s: Store, id: u16, v: i32)
    requires s.Valid()
    ensures s.Write(id, v).Valid()
    ensures id < MAX_ENTRIES ==> s.Write(id, v).Read(id) == v
    ensures forall other: u16 :: other != id ==> s.Write(id, v).Read(other) == s.Read(other)
  {
  }

  /**
   * A value that changed since the flags were clear is flagged, and its last change was offered to the bus; a
   * write that changes no value changes nothing at all.
   */
  lemma ChangesAreFlagged(s: Store, id: u16, v: i32, other: u16)
    requires s.Valid() && other < MAX_ENTRIES
    ensures s.Write(id, v).Read(other) != s.Read(other) ==>
              other == id && s.Write(id, v).dirty[other] &&
              s.Write(id, v).bus == s.bus.Publish(Event(STATE_CHANGE, other, v))
    ensures s.dirty[other] ==> s.Write(id, v).dirty[other]
    ensures id >= 256 || s.Read(id) == v ==> s.Write(id, v) == s
  {
  }

  class StateTable {
    const values: array<i32>
    const dirty: array<bool>
    const bus: EventQueue

    ghost predicate Valid()
      reads this, values, dirty, bus, bus.queue
    {
      values.Length == dirty.Length == MAX_ENTRIES && bus.Valid()
    }

    ghost function View(): Store
      reads this, values, dirty, bus, bus.queue
    {
      Store(values[..], dirty[..], bus.View())
    }

    constructor (bus: EventQueue)
      requires bus.Valid()
      ensures Valid() && this.bus == bus && fresh(values) && fresh(dirty)
      ensures View() == Store(seq(MAX_ENTRIES, _ => 0), seq(MAX_ENTRIES, _ => false), bus.View())
    {
      values := new i32[MAX_ENTRIES](_ => 0);
      dirty := new bool[MAX_ENTRIES](_ => false);
      this.bus := bus;
    }

    method SetInt(id: u16, v: i32) returns (ok: bool)
      requires Valid()
      modifies values, dirty, bus, bus.queue
      ensures Valid() && ok == (id < MAX_ENTRIES)
      ensures View() == old(View()).Write(id, v)
    {
      if id >= MAX_ENTRIES {
        return false;
      }
      if values[id] != v {
        values[id] := v;
        dirty[id] := true;
        bus.Publish(Event(STATE_CHANGE, id, v));
      }
      ok := true;
    }

    method GetInt(id: u16) returns (ok: bool, v: i32)
      requires Valid()
      ensures ok == (id < MAX_ENTRIES) && v == View().Read(id)
    {
      ok := id < MAX_ENTRIES;
      v := if ok then values[id] else 0;
    }
  }
}
