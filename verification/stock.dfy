/** Equipment creation and stock movements (`add_equipment`, `register_entry`,
    `register_exit`). Every operation takes `connected`: whether the store
    could be reached; when it cannot, nothing is written and a failure is
    returned. */
module Stock {
  import opened Store

  /** What `register_exit` reports: success, refusal carrying the quantity that
      was available, or a connection failure. */
  datatype ExitOutcome = ExitRecorded | InsufficientStock(available: int) | ExitNotConnected
  {
    /** The boolean half of the pair the source returns. */
    predicate Succeeded() { ExitRecorded? }
  }

  /** Every equipment other than `id` is present in `after` with the same row. */
  predicate OthersUnchanged(before: map<EquipmentId, Equipment>, after: map<EquipmentId, Equipment>, id: EquipmentId)
  {
    forall k :: k in before && k != id ==> k in after && after[k] == before[k]
  }

  /** Inserts a new equipment row; the store assigns the next serial id and the
      column default 0 for the current quantity. */
  function AddEquipment(st: State, connected: bool, name: string, brand: string, model: string,
                        minimum: int, location: string, tipo: string): (r: Applied<bool>)
    ensures r.outcome == connected
    ensures !connected ==> r.state == st
    ensures connected ==>
      && r.state.entries == st.entries && r.state.exits == st.exits && r.state.users == st.users
      && r.state.catalog.Keys == st.catalog.Keys + {st.nextId}
      && r.state.catalog[st.nextId]
         == Equipment(st.nextId, name, brand, model, 0, minimum, location, tipo)
      && OthersUnchanged(st.catalog, r.state.catalog, st.nextId)
      && r.state.nextId > st.nextId
    ensures connected && st.nextId !in st.catalog ==>
      forall k :: k in st.catalog ==> k in r.state.catalog && r.state.catalog[k] == st.catalog[k]
  {
    if !connected then Applied(st, false)
    else
      var id := st.nextId;
      var row := Equipment(id, name, brand, model, 0, minimum, location, tipo);
      Applied(st.(catalog := st.catalog[id := row], nextId := id + 1), true)
  }

  /** Appends an inbound ledger row and adds `quantity` to the equipment's
      current quantity. */
  function RegisterEntry(st: State, connected: bool, id: EquipmentId, quantity: int,
                         responsible: string, location: string): (r: Applied<bool>)
    requires connected ==> id in st.catalog
    ensures r.outcome == connected
    ensures !connected ==> r.state == st
    ensures connected ==>
      && r.state.entries == st.entries + [EntryRow(id, quantity, responsible, location)]
      && r.state.exits == st.exits && r.state.users == st.users && r.state.nextId == st.nextId
      && r.state.catalog.Keys == st.catalog.Keys
      && r.state.catalog[id] == st.catalog[id].(current := st.catalog[id].current + quantity)
      && OthersUnchanged(st.catalog, r.state.catalog, id)
  {
    if !connected then Applied(st, false)
    else
      var entries := st.entries + [EntryRow(id, quantity, responsible, location)];
      var item := st.catalog[id];
      var catalog := st.catalog[id := item.(current := item.current + quantity)];
      Applied(st.(catalog := catalog, entries := entries), true)
  }

  /** Reads the available quantity; refuses when it is below `quantity`,
      otherwise appends an outbound ledger row and subtracts `quantity`. */
  function RegisterExit(st: State, connected: bool, id: EquipmentId, quantity: int,
                        recipient: string): (r: Applied<ExitOutcome>)
    requires connected ==> id in st.catalog
    ensures r.outcome.Succeeded() <==> connected && st.catalog[id].current >= quantity
    ensures !r.outcome.Succeeded() ==> r.state == st
    ensures !connected ==> r.outcome == ExitNotConnected
    ensures connected && st.catalog[id].current < quantity ==>
      r.outcome == InsufficientStock(st.catalog[id].current)
    ensures r.outcome.Succeeded() ==>
      && r.state.exits == st.exits + [ExitRow(id, quantity, recipient)]
      && r.state.entries == st.entries && r.state.users == st.users && r.state.nextId == st.nextId
      && r.state.catalog.Keys == st.catalog.Keys
      && r.state.catalog[id] == st.catalog[id].(current := st.catalog[id].current - quantity)
      && OthersUnchanged(st.catalog, r.state.catalog, id)
  {
    if !connected then Applied(st, ExitNotConnected)
    else
      var available := st.catalog[id].current;
      if available >= quantity then
        var exits := st.exits + [ExitRow(id, quantity, recipient)];
        var item := st.catalog[id];
        var catalog := st.catalog[id := item.(current := available - quantity)];
        Applied(st.(catalog := catalog, exits := exits), ExitRecorded)
      else
        Applied(st, InsufficientStock(available))
  }

  /** Creating equipment keeps the store invariant: the new id is fresh, so no
      ledger row references it and its zero quantity balances. */
  lemma AddEquipmentKeepsValid(st: State, connected: bool, name: string, brand: string, model: string,
                               minimum: int, location: string, tipo: string)
    requires Valid(st)
    ensures Valid(AddEquipment(st, connected, name, brand, model, minimum, location, tipo).state)
  {
    if connected {
      var id := st.nextId;
      assert id !in st.catalog;
      EntriesForUnreferenced(st.entries, id);
      ExitsForUnreferenced(st.exits, id);
    }
  }

  /** An entry keeps the store invariant: the new ledger row balances the
      increment of its equipment and no other total moves. */
  lemma RegisterEntryKeepsValid(st: State, connected: bool, id: EquipmentId, quantity: int,
                                responsible: string, location: string)
    requires Valid(st)
    requires connected ==> id in st.catalog
    ensures Valid(RegisterEntry(st, connected, id, quantity, responsible, location).state)
  {
    if connected {
      var row := EntryRow(id, quantity, responsible, location);
      forall k | k in st.catalog
        ensures EntriesFor(st.entries + [row], k)
             == EntriesFor(st.entries, k) + (if k == id then quantity else 0)
      {
        EntriesForAppend(st.entries, row, k);
      }
    }
  }

  /** A successful or refused exit keeps the store invariant. */
  lemma RegisterExitKeepsValid(st: State, connected: bool, id: EquipmentId, quantity: int, recipient: string)
    requires Valid(st)
    requires connected ==> id in st.catalog
    ensures Valid(RegisterExit(st, connected, id, quantity, recipient).state)
  {
    if connected && st.catalog[id].current >= quantity {
      var row := ExitRow(id, quantity, recipient);
      forall k | k in st.catalog
        ensures ExitsFor(st.exits + [row], k)
             == ExitsFor(st.exits, k) + (if k == id then quantity else 0)
      {
        ExitsForAppend(st.exits, row, k);
      }
    }
  }

  /** An entry of a non-negative quantity keeps every current quantity
      non-negative (the form asks for at least 1). */
  lemma RegisterEntryKeepsNonNegative(st: State, connected: bool, id: EquipmentId, quantity: int,
                                      responsible: string, location: string)
    requires NonNegative(st)
    requires connected ==> id in st.catalog
    requires quantity >= 0
    ensures NonNegative(RegisterEntry(st, connected, id, quantity, responsible, location).state)
  {
  }

  /** The sufficiency check alone keeps every current quantity non-negative,
      whatever quantity is asked for. */
  lemma RegisterExitKeepsNonNegative(st: State, connected: bool, id: EquipmentId, quantity: int, recipient: string)
    requires NonNegative(st)
    requires connected ==> id in st.catalog
    ensures NonNegative(RegisterExit(st, connected, id, quantity, recipient).state)
  {
  }

  /** Asking for 3 units of an equipment that holds 2 is refused with the
      available 2, and the store keeps its 2 units. */
  lemma ExitOfThreeFromTwo(st: State)
    requires 1 in st.catalog && st.catalog[1].current == 2
    ensures RegisterExit(st, true, 1, 3, "Ana") == Applied(st, InsufficientStock(2))
    ensures RegisterExit(st, true, 1, 3, "Ana").state.catalog[1].current == 2
  {
  }

  /** One request against the store, as the forms issue them. */
  datatype Request =
    | NewEquipment(name: string, brand: string, model: string, minimum: int, location: string, tipo: string)
    | Entry(id: EquipmentId, quantity: int, responsible: string, location: string)
    | Exit(id: EquipmentId, quantity: int, recipient: string)

  /** A request the forms can issue in `st`: movements name an existing
      equipment and a quantity of at least 1. */
  predicate Admissible(st: State, req: Request)
  {
    match req
    case NewEquipment(_, _, _, _, _, _) => true
    case Entry(id, quantity, _, _) => id in st.catalog && quantity >= 1
    case Exit(id, quantity, _) => id in st.catalog && quantity >= 1
  }

  /** The store after serving one request. */
  function Serve(st: State, connected: bool, req: Request): State
    requires Admissible(st, req)
  {
    match req
    case NewEquipment(name, brand, model, minimum, location, tipo) =>
      AddEquipment(st, connected, name, brand, model, minimum, location, tipo).state
    case Entry(id, quantity, responsible, location) =>
      RegisterEntry(st, connected, id, quantity, responsible, location).state
    case Exit(id, quantity, recipient) =>
      RegisterExit(st, connected, id, quantity, recipient).state
  }

  /** Whether each request of `reqs` is admissible in the state the earlier
      ones leave behind; `links[i]` says whether request `i` reached the store. */
  predicate RunsFrom(st: State, links: seq<bool>, reqs: seq<Request>)
    requires |links| == |reqs|
    decreases |reqs|
  {
    |reqs| == 0 || (Admissible(st, reqs[0]) && RunsFrom(Serve(st, links[0], reqs[0]), links[1..], reqs[1..]))
  }

  /** The store after serving `reqs` one at a time, in order. */
  function Run(st: State, links: seq<bool>, reqs: seq<Request>): State
    requires |links| == |reqs|
    requires RunsFrom(st, links, reqs)
    decreases |reqs|
  {
    if |reqs| == 0 then st else Run(Serve(st, links[0], reqs[0]), links[1..], reqs[1..])
  }

  /** Under sequential execution the store invariant and non-negative stock
      hold after any sequence of admissible requests. */
  lemma {:induction false} RunKeepsInvariants(st: State, links: seq<bool>, reqs: seq<Request>)
    requires |links| == |reqs|
    requires RunsFrom(st, links, reqs)
    requires Valid(st) && NonNegative(st)
    ensures Valid(Run(st, links, reqs)) && NonNegative(Run(st, links, reqs))
    decreases |reqs|
  {
    if |reqs| > 0 {
      var next := Serve(st, links[0], reqs[0]);
      match reqs[0] {
        case NewEquipment(name, brand, model, minimum, location, tipo) =>
          AddEquipmentKeepsValid(st, links[0], name, brand, model, minimum, location, tipo);
        case Entry(id, quantity, responsible, location) =>
          RegisterEntryKeepsValid(st, links[0], id, quantity, responsible, location);
          RegisterEntryKeepsNonNegative(st, links[0], id, quantity, responsible, location);
        case Exit(id, quantity, recipient) =>
          RegisterExitKeepsValid(st, links[0], id, quantity, recipient);
          RegisterExitKeepsNonNegative(st, links[0], id, quantity, recipient);
      }
      RunKeepsInvariants(next, links[1..], reqs[1..]);
    }
  }
}
