/** The persistent state of the inventory application: the four tables of the
    relational store (`equipamentos`, `entradas`, `saidas`, `usuarios`), held
    as an immutable value instead of a database. */
module Store {

  datatype Option<+T> = None | Some(value: T)

  /** Role groups stored in `usuarios.grupo`. */
  const GroupTI: string := "TI"
  const GroupUsuario: string := "Usuario"

  /** Equipment categories stored in `equipamentos.tipo`. */
  const TipoGeral: string := "Geral"
  const TipoTI: string := "TI"

  /** `equipamentos.id`, a serial key. */
  type EquipmentId = nat

  /** One row of `equipamentos`, in the column order the listing query selects. */
  datatype Equipment = Equipment(
    id: EquipmentId,
    name: string,
    brand: string,
    model: string,
    current: int,
    minimum: int,
    location: string,
    tipo: string)

  /** One row of the inbound ledger `entradas`. */
  datatype EntryRow = EntryRow(equipmentId: EquipmentId, quantity: int, responsible: string, location: string)

  /** One row of the outbound ledger `saidas`. */
  datatype ExitRow = ExitRow(equipmentId: EquipmentId, quantity: int, recipient: string)

  /** The stored part of one row of `usuarios`, keyed by its unique name. */
  datatype UserRecord = UserRecord(passwordHash: string, group: string)

  /** The whole store. `nextId` is the next value of the serial sequence behind
      `equipamentos.id`. */
  datatype State = State(
    catalog: map<EquipmentId, Equipment>,
    entries: seq<EntryRow>,
    exits: seq<ExitRow>,
    users: map<string, UserRecord>,
    nextId: EquipmentId)

  /** The state of a store operation together with what it returned. */
  datatype Applied<+O> = Applied(state: State, outcome: O)

  /** A freshly created schema: no rows, serial sequence starting at 1. */
  function EmptyStore(): (st: State)
    ensures Valid(st) && NonNegative(st)
  {
    State(map[], [], [], map[], 1)
  }

  /** Total quantity brought in for `id` by the inbound ledger. */
  function EntriesFor(entries: seq<EntryRow>, id: EquipmentId): int
  {
    if |entries| == 0 then 0
    else
      var last := entries[|entries| - 1];
      EntriesFor(entries[..|entries| - 1], id) + (if last.equipmentId == id then last.quantity else 0)
  }

  /** Total quantity taken out for `id` by the outbound ledger. */
  function ExitsFor(exits: seq<ExitRow>, id: EquipmentId): int
  {
    if |exits| == 0 then 0
    else
      var last := exits[|exits| - 1];
      ExitsFor(exits[..|exits| - 1], id) + (if last.equipmentId == id then last.quantity else 0)
  }

  /** The invariant every reachable store keeps:
      - each catalog row sits under its own id, below the serial counter;
      - each ledger row references an existing equipment;
      - each equipment's current quantity is what its ledger rows add up to
        (the column starts at its default 0). */
  predicate Valid(st: State)
  {
    && (forall k :: k in st.catalog ==> st.catalog[k].id == k && k < st.nextId)
    && (forall i :: 0 <= i < |st.entries| ==> st.entries[i].equipmentId in st.catalog)
    && (forall i :: 0 <= i < |st.exits| ==> st.exits[i].equipmentId in st.catalog)
    && (forall k :: k in st.catalog ==>
          st.catalog[k].current == EntriesFor(st.entries, k) - ExitsFor(st.exits, k))
  }

  /** No equipment has a negative current quantity. */
  predicate NonNegative(st: State)
  {
    forall k :: k in st.catalog ==> st.catalog[k].current >= 0
  }

  /** Appending one inbound row adds its quantity to its own equipment's total only. */
  lemma {:induction false} EntriesForAppend(entries: seq<EntryRow>, row: EntryRow, id: EquipmentId)
    ensures EntriesFor(entries + [row], id)
         == EntriesFor(entries, id) + (if row.equipmentId == id then row.quantity else 0)
  {
    assert (entries + [row])[..|entries|] == entries;
  }

  /** Appending one outbound row adds its quantity to its own equipment's total only. */
  lemma {:induction false} ExitsForAppend(exits: seq<ExitRow>, row: ExitRow, id: EquipmentId)
    ensures ExitsFor(exits + [row], id)
         == ExitsFor(exits, id) + (if row.equipmentId == id then row.quantity else 0)
  {
    assert (exits + [row])[..|exits|] == exits;
  }

  /** An id no inbound row references has an inbound total of zero. */
  lemma {:induction false} EntriesForUnreferenced(entries: seq<EntryRow>, id: EquipmentId)
    requires forall i :: 0 <= i < |entries| ==> entries[i].equipmentId != id
    ensures EntriesFor(entries, id) == 0
  {
    if |entries| > 0 {
      EntriesForUnreferenced(entries[..|entries| - 1], id);
    }
  }

  /** An id no outbound row references has an outbound total of zero. */
  lemma {:induction false} ExitsForUnreferenced(exits: seq<ExitRow>, id: EquipmentId)
    requires forall i :: 0 <= i < |exits| ==> exits[i].equipmentId != id
    ensures ExitsFor(exits, id) == 0
  {
    if |exits| > 0 {
      ExitsForUnreferenced(exits[..|exits| - 1], id);
    }
  }
}
