/** The session lifecycle and the logic of the pages: what each form submission
    does to the store, given who is logged in. Rendering is not modelled; each
    page is a function from the session, the store and the form's inputs to the
    new store and what the page reports. */
module Pages {
  import opened Store
  import opened Stock
  import opened Auth
  import opened Visibility

  /** The login state the application keeps per browser session. `LoggedOut`
      is the session with the `logged_in` flag false and no group or user name;
      `LoggedIn` holds the flag set together with both values. */
  datatype Session = LoggedOut | LoggedIn(group: string, username: string)

  /** A new browser session starts logged out. */
  function InitialSession(): (s: Session)
    ensures !s.LoggedIn?
  {
    LoggedOut
  }

  /** Submitting the login form: the session is logged in with the stored group
      when authentication returns a group that is a non-empty string (the
      source tests the returned group for truthiness); otherwise it stays
      logged out. */
  function Login(st: State, connected: bool, crypto: Crypto, username: string, password: string): (s: Session)
    ensures s.LoggedIn? <==>
      && connected && username in st.users
      && crypto.verify(password, st.users[username].passwordHash)
      && st.users[username].group != ""
    ensures s.LoggedIn? ==> s.group == st.users[username].group && s.username == username
  {
    var group := Authenticate(st, connected, crypto, username, password);
    if group.Some? && group.value != "" then LoggedIn(group.value, username) else LoggedOut
  }

  /** Pressing "Sair": every session value is deleted, and the next run starts
      from the initial, logged-out session. */
  function Logout(s: Session): (r: Session)
    ensures r == InitialSession()
  {
    LoggedOut
  }

  /** A user registered through the store can log in with the password given
      at registration, and the session then carries the registered group. */
  lemma RegisteredUserLogsIn(st: State, crypto: Crypto, salt: string, name: string, password: string, group: string)
    requires Sound(crypto)
    requires name !in st.users
    requires group != ""
    ensures Login(AddUser(st, true, crypto, salt, name, password, group).state, true, crypto, name, password)
         == LoggedIn(group, name)
  {
    RegisterThenAuthenticate(st, crypto, salt, name, password, group);
  }

  /** `rows` was read from `st` by the listing query: each row is the
      catalog's row under its id. */
  predicate Listed(st: State, rows: seq<Equipment>)
  {
    forall i :: 0 <= i < |rows| ==> rows[i].id in st.catalog && st.catalog[rows[i].id] == rows[i]
  }

  /** What the dashboard shows: a notice that there is no equipment, or the
      visible rows with the low-stock warnings among them. */
  datatype Dashboard = NoEquipment | Table(rows: seq<Equipment>, lowStock: seq<Equipment>)

  /** The dashboard for a logged-in session: the table holds the rows the
      dashboard rule lets the session see, and the warnings are taken from
      exactly those rows. */
  function DashboardPage(session: Session, rows: seq<Equipment>, showGeneral: bool): (d: Dashboard)
    requires session.LoggedIn?
    ensures d.NoEquipment? <==> forall e :: e in rows ==> e !in DashboardRows(session.group, showGeneral, rows)
    ensures d.Table? ==> d.rows == DashboardRows(session.group, showGeneral, rows) && d.lowStock == LowStock(d.rows)
    ensures d.Table? ==> forall e :: e in d.lowStock <==> e in d.rows && e.current < e.minimum
    ensures d.Table? && session.group == GroupUsuario ==> forall e :: e in d.rows ==> e.tipo == TipoGeral
    ensures d.Table? && session.group == GroupTI && !showGeneral ==> forall e :: e in d.rows ==> e.tipo == TipoTI
  {
    var shown := DashboardRows(session.group, showGeneral, rows);
    if |shown| == 0 then NoEquipment else Table(shown, LowStock(shown))
  }

  /** The dashboard warns about exactly the listed rows that the dashboard rule
      lets the session see and that are below their minimum. */
  lemma DashboardWarnings(session: Session, rows: seq<Equipment>, showGeneral: bool, e: Equipment)
    requires session.LoggedIn?
    ensures var d := DashboardPage(session, rows, showGeneral);
      (d.Table? && e in d.lowStock) <==>
        e in rows && DashboardShows(session.group, showGeneral, e.tipo) && e.current < e.minimum
  {
    var shown := DashboardRows(session.group, showGeneral, rows);
    if e in rows && DashboardShows(session.group, showGeneral, e.tipo) {
      assert e in shown;
      assert |shown| > 0;
    }
  }

  /** A `Geral` monitor holding 5 units against a minimum of 10 is warned about
      on a `Usuario`'s dashboard; a `TI` session sees the warning only with the
      toggle set. */
  lemma MonitorWarnedOnDashboard(name: string, monitor: Equipment, rows: seq<Equipment>)
    requires monitor.name == "Monitor" && monitor.current == 5 && monitor.minimum == 10
    requires monitor.tipo == TipoGeral
    requires monitor in rows
    ensures var d := DashboardPage(LoggedIn(GroupUsuario, name), rows, false);
      d.Table? && monitor in d.lowStock
    ensures var d := DashboardPage(LoggedIn(GroupTI, name), rows, true);
      d.Table? && monitor in d.lowStock
    ensures var d := DashboardPage(LoggedIn(GroupTI, name), rows, false);
      !(d.Table? && monitor in d.lowStock)
  {
    DashboardWarnings(LoggedIn(GroupUsuario, name), rows, false, monitor);
    DashboardWarnings(LoggedIn(GroupTI, name), rows, true, monitor);
    DashboardWarnings(LoggedIn(GroupTI, name), rows, false, monitor);
  }

  /** What a form page reports after a submission. */
  datatype FormOutcome = Saved | SaveFailed | FieldRequired

  /** The equipment form: the name is required; a `TI` session picks the
      category, any other session always creates `Geral` equipment. */
  function EquipmentRegistrationPage(session: Session, st: State, connected: bool, name: string, brand: string,
                                     model: string, location: string, chosenTipo: string, minimum: int)
    : (r: Applied<FormOutcome>)
    requires session.LoggedIn?
    ensures r.outcome == FieldRequired <==> name == ""
    ensures r.outcome == Saved <==> name != "" && connected
    ensures r.outcome != Saved ==> r.state == st
    ensures r.outcome == Saved ==>
      && r.state.catalog.Keys == st.catalog.Keys + {st.nextId}
      && r.state.catalog[st.nextId]
         == Equipment(st.nextId, name, brand, model, 0, minimum, location,
                      if session.group == GroupTI then chosenTipo else TipoGeral)
      && OthersUnchanged(st.catalog, r.state.catalog, st.nextId)
      && r.state.entries == st.entries && r.state.exits == st.exits && r.state.users == st.users
      && r.state.nextId > st.nextId
    ensures session.group != GroupTI ==>
      forall k :: k in r.state.catalog && k !in st.catalog ==> r.state.catalog[k].tipo == TipoGeral
  {
    var tipo := if session.group == GroupTI then chosenTipo else TipoGeral;
    if name == "" then Applied(st, FieldRequired)
    else
      var added := AddEquipment(st, connected, name, brand, model, minimum, location, tipo);
      Applied(added.state, if added.outcome then Saved else SaveFailed)
  }

  /** The entry form: the equipment is chosen among the rows the page rule
      shows, and the quantity widget allows no less than 1. */
  function EntryRegistrationPage(session: Session, st: State, connected: bool, rows: seq<Equipment>,
                                 choice: nat, quantity: int, responsible: string, location: string)
    : (r: Applied<FormOutcome>)
    requires session.LoggedIn?
    requires Listed(st, rows)
    requires choice < |PageRows(session.group, rows)|
    requires quantity >= 1
    ensures r.outcome == Saved <==> connected
    ensures r.outcome == SaveFailed <==> !connected
    ensures r.outcome != Saved ==> r.state == st
    ensures var chosen := PageRows(session.group, rows)[choice];
      r.outcome == Saved ==>
        && r.state.catalog.Keys == st.catalog.Keys
        && r.state.catalog[chosen.id] == chosen.(current := chosen.current + quantity)
        && OthersUnchanged(st.catalog, r.state.catalog, chosen.id)
        && r.state.entries == st.entries + [EntryRow(chosen.id, quantity, responsible, location)]
        && r.state.exits == st.exits && r.state.users == st.users && r.state.nextId == st.nextId
    ensures session.group == GroupUsuario ==>
      forall k :: k in st.catalog && st.catalog[k].tipo != TipoGeral ==>
        k in r.state.catalog && r.state.catalog[k] == st.catalog[k]
  {
    var chosen := PageRows(session.group, rows)[choice];
    assert chosen in rows;
    var entered := RegisterEntry(st, connected, chosen.id, quantity, responsible, location);
    Applied(entered.state, if entered.outcome then Saved else SaveFailed)
  }

  /** What the exit form reports: the recipient is required, otherwise the
      result of the exit itself. */
  datatype ExitPageOutcome = RecipientRequired | Exited(result: ExitOutcome)

  /** The exit form: the quantity widget allows no less than 1, and the
      recipient must be filled in before anything else happens; only then is
      the equipment looked up among the rows the page rule shows. */
  function ExitRegistrationPage(session: Session, st: State, connected: bool, rows: seq<Equipment>,
                                choice: nat, quantity: int, recipient: string)
    : (r: Applied<ExitPageOutcome>)
    requires session.LoggedIn?
    requires Listed(st, rows)
    requires recipient != "" ==> choice < |PageRows(session.group, rows)|
    requires quantity >= 1
    ensures r.outcome == RecipientRequired <==> recipient == ""
    ensures !(r.outcome.Exited? && r.outcome.result.Succeeded()) ==> r.state == st
    ensures r.outcome == Exited(ExitNotConnected) <==> recipient != "" && !connected
    ensures recipient != "" ==>
      var chosen := PageRows(session.group, rows)[choice];
      && (r.outcome.Exited? && r.outcome.result.Succeeded() <==> connected && chosen.current >= quantity)
      && (r.outcome.Exited? && r.outcome.result.InsufficientStock? <==> connected && chosen.current < quantity)
      && (connected && chosen.current < quantity ==> r.outcome == Exited(InsufficientStock(chosen.current)))
      && (r.outcome.Exited? && r.outcome.result.Succeeded() ==>
            && r.state.catalog.Keys == st.catalog.Keys
            && r.state.catalog[chosen.id] == chosen.(current := chosen.current - quantity)
            && OthersUnchanged(st.catalog, r.state.catalog, chosen.id)
            && r.state.exits == st.exits + [ExitRow(chosen.id, quantity, recipient)]
            && r.state.entries == st.entries && r.state.users == st.users && r.state.nextId == st.nextId)
    ensures session.group == GroupUsuario ==>
      forall k :: k in st.catalog && st.catalog[k].tipo != TipoGeral ==>
        k in r.state.catalog && r.state.catalog[k] == st.catalog[k]
  {
    if recipient == "" then Applied(st, RecipientRequired)
    else
      var chosen := PageRows(session.group, rows)[choice];
      assert chosen in rows;
      var exited := RegisterExit(st, connected, chosen.id, quantity, recipient);
      Applied(exited.state, Exited(exited.outcome))
  }

  /** What the user registration page reports. */
  datatype UserPageOutcome = PermissionDenied | CredentialsRequired | Registration(result: AddUserOutcome)

  /** The user registration page: only a `TI` session gets past the permission
      check, and both user name and password are required. */
  function UserRegistrationPage(session: Session, st: State, connected: bool, crypto: Crypto, salt: string,
                                username: string, password: string, group: string)
    : (r: Applied<UserPageOutcome>)
    requires session.LoggedIn?
    ensures session.group != GroupTI ==> r.outcome == PermissionDenied && r.state == st
    ensures r.outcome == PermissionDenied <==> session.group != GroupTI
    ensures r.outcome == CredentialsRequired <==> session.group == GroupTI && (username == "" || password == "")
    ensures r.outcome == Registration(Created) <==>
      session.group == GroupTI && username != "" && password != "" && connected && username !in st.users
    ensures r.outcome == Registration(DuplicateName) <==>
      session.group == GroupTI && username != "" && password != "" && connected && username in st.users
    ensures r.outcome == Registration(UserNotConnected) <==>
      session.group == GroupTI && username != "" && password != "" && !connected
    ensures r.outcome != Registration(Created) ==> r.state == st
    ensures r.outcome == Registration(Created) ==>
      && r.state.catalog == st.catalog && r.state.entries == st.entries && r.state.exits == st.exits
      && r.state.nextId == st.nextId
      && r.state.users.Keys == st.users.Keys + {username}
      && r.state.users[username] == UserRecord(crypto.hash(password, salt), group)
      && (forall other :: other in st.users ==> r.state.users[other] == st.users[other])
  {
    if session.group != GroupTI then Applied(st, PermissionDenied)
    else if username == "" || password == "" then Applied(st, CredentialsRequired)
    else
      var added := AddUser(st, connected, crypto, salt, username, password, group);
      Applied(added.state, Registration(added.outcome))
  }

  /** A `Usuario` session cannot create a login: whatever it submits on the
      user registration page, a name that was not registered still cannot log
      in afterwards, with any password. */
  lemma UsuarioCannotCreateLogins(st: State, connected: bool, crypto: Crypto, salt: string, username: string,
                                  password: string, group: string, name: string, attempt: string)
    requires username !in st.users
    ensures var after := UserRegistrationPage(LoggedIn(GroupUsuario, name), st, connected, crypto, salt,
                                              username, password, group).state;
            !Login(after, true, crypto, username, attempt).LoggedIn?
  {
  }

  /** The equipment form keeps the store invariant and non-negative stock. */
  lemma {:induction false} EquipmentPageKeepsInvariants(session: Session, st: State, connected: bool, name: string,
                                     brand: string, model: string, location: string, chosenTipo: string, minimum: int)
    requires session.LoggedIn?
    requires Valid(st) && NonNegative(st)
    ensures var r := EquipmentRegistrationPage(session, st, connected, name, brand, model, location, chosenTipo, minimum);
            Valid(r.state) && NonNegative(r.state)
  {
    if name != "" {
      var tipo := if session.group == GroupTI then chosenTipo else TipoGeral;
      AddEquipmentKeepsValid(st, connected, name, brand, model, minimum, location, tipo);
    }
  }

  /** The entry form keeps the store invariant and non-negative stock: the
      widget's minimum of 1 makes every entry a non-negative increment. */
  lemma {:induction false} EntryPageKeepsInvariants(session: Session, st: State, connected: bool, rows: seq<Equipment>,
                                 choice: nat, quantity: int, responsible: string, location: string)
    requires session.LoggedIn?
    requires Listed(st, rows)
    requires choice < |PageRows(session.group, rows)|
    requires quantity >= 1
    requires Valid(st) && NonNegative(st)
    ensures var r := EntryRegistrationPage(session, st, connected, rows, choice, quantity, responsible, location);
            Valid(r.state) && NonNegative(r.state)
  {
    var chosen := PageRows(session.group, rows)[choice];
    assert chosen in rows;
    RegisterEntryKeepsValid(st, connected, chosen.id, quantity, responsible, location);
    RegisterEntryKeepsNonNegative(st, connected, chosen.id, quantity, responsible, location);
  }

  /** The exit form keeps the store invariant and non-negative stock. */
  lemma {:induction false} ExitPageKeepsInvariants(session: Session, st: State, connected: bool, rows: seq<Equipment>,
                                choice: nat, quantity: int, recipient: string)
    requires session.LoggedIn?
    requires Listed(st, rows)
    requires recipient != "" ==> choice < |PageRows(session.group, rows)|
    requires quantity >= 1
    requires Valid(st) && NonNegative(st)
    ensures var r := ExitRegistrationPage(session, st, connected, rows, choice, quantity, recipient);
            Valid(r.state) && NonNegative(r.state)
  {
    if recipient != "" {
      var chosen := PageRows(session.group, rows)[choice];
      assert chosen in rows;
      RegisterExitKeepsValid(st, connected, chosen.id, quantity, recipient);
      RegisterExitKeepsNonNegative(st, connected, chosen.id, quantity, recipient);
    }
  }
}
