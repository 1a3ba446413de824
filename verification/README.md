# Inventory control: a Dafny model of the stock and access logic

This project models the core of a small inventory-control web application
(`app.py`). Users log in and get a role group, `TI` or `Usuario`. They view
stock levels and register inbound (`entradas`) and outbound (`saidas`)
movements of equipment. A `TI` user can also register new users.

The PostgreSQL store becomes an immutable value `Store.State`. It holds:

- the catalog: a map from equipment id to its `equipamentos` row;
- the two append-only ledgers of entry and exit rows;
- the user table: a map from user name to stored hash and group;
- the serial counter that assigns equipment ids.

Each database function becomes a pure function that returns the new state
together with what the source returns.

Files:

- `store.dfy` (module `Store`): the data model, the group and category
  constants, and the store invariant `Valid`. The invariant says that every
  ledger row names an existing equipment, and that each equipment's current
  quantity equals its inbound total minus its outbound total.
- `stock.dfy` (module `Stock`): `add_equipment`, `register_entry` and
  `register_exit`, the invariants they keep, and a run of any sequence of
  form requests.
- `auth.dfy` (module `Auth`): the abstract password hash, `authenticate_user`
  and `add_user`.
- `visibility.dfy` (module `Visibility`): the order-preserving filters for
  the dashboard rule, the entry/exit-page rule and low-stock selection.
- `pages.dfy` (module `Pages`): the session lifecycle (login, logout) and
  what each form page does with its inputs, including the `TI`-only gate of
  the user registration page.

Group and category are kept as the strings the database stores, not as an
enumeration. This keeps two edge cases of the code:

- the dashboard does not filter at all for a group that is neither `TI` nor
  `Usuario`;
- login fails when the stored group is the empty string, because the source
  tests the returned group for truthiness.

The dashboard rule and the entry/exit-page rule differ. On the dashboard
`TI` sees only `TI` items unless the "show general items" toggle is set. On
the entry and exit pages `Usuario` is restricted to `Geral` items and `TI`
is not filtered at all (`Visibility.TIRulesDiffer`).

`add_user` returns `False` for a duplicate name, as it does for every other
failure. `Auth.AddUserOutcome` keeps the three cases apart, and only
`Created` corresponds to `True`.

## Model

| member | source | states |
|---|---|---|
| `Stock.AddEquipment` | app.py:76-87 | When connected, the new row gets the next serial id, current quantity 0 (the column default) and the given fields. Every row under another id, both ledgers and the users stay unchanged, and when the serial id is fresh every existing row stays unchanged. Without a connection it returns false and changes nothing. |
| `Stock.RegisterEntry` | app.py:100-117 | When connected, exactly one entry row is appended. The chosen equipment's current quantity rises by exactly `quantity`, its other fields stay the same, and every other equipment, the exit ledger and the users are unchanged. Without a connection nothing changes. |
| `Stock.RegisterExit` | app.py:120-144 | Succeeds exactly when connected and the available quantity is at least the request. Then one exit row is appended, that equipment drops by exactly `quantity`, and everything else is unchanged. When stock is short it returns `InsufficientStock` carrying the available quantity. Every failure leaves the state unchanged. |
| `Stock.AddEquipmentKeepsValid` | app.py:76-87 | Creating equipment keeps the store invariant. The new id is fresh, so no ledger row references it and its zero quantity balances. |
| `Stock.RegisterEntryKeepsValid` | app.py:105-113 | The insert and the increment together keep every equipment's quantity equal to its ledger balance. |
| `Stock.RegisterExitKeepsValid` | app.py:125-140 | The insert and the decrement together keep every equipment's quantity equal to its ledger balance, and a refusal writes nothing. |
| `Stock.RegisterEntryKeepsNonNegative` | app.py:110-112 | An entry of a non-negative quantity (the form asks for at least 1) keeps every current quantity non-negative. |
| `Stock.RegisterExitKeepsNonNegative` | app.py:125-137 | The sufficiency check alone keeps every current quantity non-negative, whatever quantity is requested. |
| `Stock.ExitOfThreeFromTwo` | app.py:141-143 | Asking for 3 units of an equipment holding 2 returns the refusal carrying 2 and leaves the store unchanged, with the equipment still at 2. |
| `Stock.RunKeepsInvariants` | app.py:100-144 | Under sequential execution, any sequence of equipment creations, and of entries and exits of at least 1 unit on existing equipment, keeps both the ledger-balance invariant and non-negative stock. |
| `Auth.Authenticate` | app.py:38-48 | Returns a group exactly when connected, the name is stored and the password verifies against the stored hash. The group returned is the stored one. Otherwise it returns `None`. |
| `Auth.AddUser` | app.py:50-71 | Creates the user exactly when connected and the name is new, storing the salted hash and the group. Other users, the catalog and the ledgers are unchanged. A taken name gives `DuplicateName` and writes nothing. |
| `Auth.RegisterThenAuthenticate` | app.py:30-47 | With a hash that verifies what it hashed, a user registered with a password authenticates with that password and gets back the registered group. |
| `Auth.RegisterThenWrongPassword` | app.py:34-48 | A password that does not verify against the stored hash is refused. |
| `Auth.RegisterTwice` | app.py:57-65 | Registering one name twice gives `Created` and then `DuplicateName`. The second call leaves the state unchanged, so the table has exactly one more user. |
| `Auth.AddUserKeepsOtherLogins` | app.py:57-61 | Registering a user does not change any other name's authentication result. |
| `Visibility.FilterKeepsOrder` | app.py:202-211 | A list-comprehension filter keeps the relative order of the rows it keeps, under any ordering. |
| `Visibility.Filter` | app.py:202 | The result holds exactly the input rows that pass the condition: each kept row is in the input and passes, and each passing input row is kept. It is never longer than the input. |
| `Visibility.DashboardRows` | app.py:200-211 | A row is shown exactly when it is in the listing and the dashboard rule `DashboardShows` admits its category for the group and toggle. Rows are never invented, and every admitted row of the listing is kept. |
| `Visibility.DashboardRule` | app.py:201-211 | The dashboard rule group by group. `Usuario` sees exactly the `Geral` rows. `TI` sees exactly the `TI` rows, or exactly the `TI` and `Geral` rows when the toggle is set. Any other group sees the unfiltered listing. |
| `Visibility.PageRows` | app.py:260-262 | A row is offered on the entry page (and the identical exit page, app.py:286-288) exactly when it is in the listing and `PageShows` admits it: for `Usuario` only `Geral` rows, for any other group every row. |
| `Visibility.PageRule` | app.py:286-288 | `Usuario` is offered exactly the `Geral` rows, and every other group, `TI` included, gets the unfiltered listing. |
| `Visibility.LowStock` | app.py:222-226 | A row is warned about exactly when it is among the shown rows and its current quantity is below its minimum. |
| `Visibility.DashboardKeepsNameOrder` | app.py:198-211 | If the listing is sorted by name, so are the rows the dashboard shows, for every group and toggle. |
| `Visibility.PageKeepsNameOrder` | app.py:258-262 | If the listing is sorted by name, so are the rows offered on the entry and exit pages. |
| `Visibility.LowStockKeepsNameOrder` | app.py:222-226 | The low-stock warnings come in the name order of the rows they are taken from. |
| `Visibility.UsuarioRuleEverywhere` | app.py:201-202 | For `Usuario`, the dashboard and the entry/exit pages show the same rows. |
| `Visibility.TIRulesDiffer` | app.py:203-206 | The entry/exit pages show `TI` the unfiltered listing. Every `Geral` row is offered to `TI` on those pages but missing from the dashboard without the toggle. |
| `Visibility.TIWithToggleSeesAll` | app.py:208-211 | When every row is `Geral` or `TI`, `TI` with the toggle set sees the whole listing. |
| `Visibility.UsuarioLowStock` | app.py:222-226 | A `Usuario` is warned about exactly the `Geral` rows below their minimum, in listing order. |
| `Pages.InitialSession` | app.py:333-334 | A new session is not logged in. |
| `Pages.Login` | app.py:149-162 | The session becomes logged in exactly when connected, the name is stored, the password verifies and the stored group is non-empty. It then carries the stored group and the typed user name. Otherwise it stays logged out. |
| `Pages.Logout` | app.py:190-193 | Logging out from any session yields the initial session. |
| `Pages.RegisteredUserLogsIn` | app.py:154-159 | A user registered with a non-empty group logs in with the registered password and gets a session with that group and name. |
| `Pages.DashboardPage` | app.py:195-228 | The no-equipment notice appears exactly when no row is visible. Otherwise the table holds exactly the rows the dashboard rule shows, in listing order, and the warnings are the low-stock selection of those rows. A `Usuario` is shown only `Geral` rows. `TI` without the toggle is shown only `TI` rows. |
| `Pages.DashboardWarnings` | app.py:200-226 | A row is warned about on the dashboard exactly when it is listed, the dashboard rule lets the session see it, and its current quantity is below its minimum. |
| `Pages.MonitorWarnedOnDashboard` | app.py:200-226 | A `Geral` monitor at 5 units against a minimum of 10 is warned about on a `Usuario`'s dashboard and on a `TI` dashboard with the toggle set, and not on a `TI` dashboard without it. |
| `Pages.EquipmentRegistrationPage` | app.py:230-253 | An empty name is refused without a write. A save happens exactly when the name is non-empty and the store is reachable. It creates one row at the next id with the form's fields and quantity 0, and advances the id counter. It changes no other row, neither ledger and no user. The row's category is the chosen one for `TI` and `Geral` for every other group. |
| `Pages.EntryRegistrationPage` | app.py:255-279 | Only an equipment from the page's visible rows can be chosen. The page reports the save error exactly when the store is unreachable, and nothing is written then. A connected submission adds exactly the quantity to it, appends one entry row, and changes no other equipment, field, ledger or user. A `Usuario` never changes a non-`Geral` equipment. |
| `Pages.ExitRegistrationPage` | app.py:281-308 | An empty recipient is refused before any equipment is looked up, even with no equipment to choose from. Otherwise an unreachable store is reported as a connection failure, never as a stock refusal. The exit succeeds exactly when the store is reachable and the chosen visible row holds at least the quantity, and it is refused for stock exactly when the store is reachable and the row holds less. It then subtracts the quantity, appends one exit row, and changes no other equipment, field, ledger or user. A refusal reports that row's quantity and writes nothing. A `Usuario` never changes a non-`Geral` equipment. |
| `Pages.UserRegistrationPage` | app.py:310-330 | Any group other than `TI` gets permission denied and no change. For `TI`, an empty name or password is refused. A user is created exactly when both are filled in, the store is reachable and the name is new. A taken name and an unreachable store are reported as two separate outcomes. It stores the salted hash and the group, and leaves the other users, the catalog and both ledgers unchanged. |
| `Pages.UsuarioCannotCreateLogins` | app.py:313-315 | Whatever a `Usuario` session submits on the user registration page, a name that was not registered still cannot log in afterwards, with any password. |
| `Pages.EquipmentPageKeepsInvariants` | app.py:230-253 | Any submission of the equipment form keeps the ledger-balance invariant and non-negative stock. |
| `Pages.EntryPageKeepsInvariants` | app.py:255-279 | Any submission of the entry form keeps the ledger-balance invariant and non-negative stock, because the quantity widget allows no less than 1 (app.py:269). |
| `Pages.ExitPageKeepsInvariants` | app.py:281-308 | Any submission of the exit form keeps the ledger-balance invariant and non-negative stock, whether it is refused or recorded. |

## Left out

- Database connections (app.py:14-27) are a boolean parameter `connected`. When it is false, every operation returns its failure and writes nothing. Connection parameters and the error message are not modelled.
- bcrypt hashing and salting (app.py:30-36) is the abstract `Auth.Crypto`: a hash function of password and salt plus a verify function. The random salt is a parameter. The one assumed property, that a password verifies against its own hash, is the hypothesis `Auth.Sound` of the lemmas that need it.
- The concurrent check-then-act race in `register_exit` is not modelled. The model is sequential, so the read and the decrement happen as one step.
- `Stock.RegisterEntry` and `Stock.RegisterExit` require an existing equipment id. The source would crash on a missing id (a foreign-key error, or indexing `None`). The pages only ever submit ids from the listing (`Pages.Listed`).
- `Pages.EntryRegistrationPage` requires a chosen option, and `Pages.ExitRegistrationPage` requires one once the recipient is filled in. With an empty option list these submissions raise a key error in the source, and that crash is not modelled. An exit submitted with an empty recipient is modelled whatever the option list: the warning comes before the lookup.
- `add_user`'s generic exception branch (app.py:66-68) is not modelled. Only the duplicate-name integrity error and the connection failure are. Database errors that other inserts could raise are not modelled either.
- Integer columns are unbounded integers. PostgreSQL's 32-bit overflow on very large quantities is not modelled.
- Sorting by name (`ORDER BY nome`, app.py:93) is taken as given. The order lemmas hold for any collation the store sorts by.
- Streamlit rendering, the pandas table, message wording, the sidebar and navigation menus (app.py:164-188) are not modelled. Only the available quantity carried by the insufficient-stock outcome is kept.
- `create_db.py`, `execute_schema.py` and `alter_table_add_tipo.py` are one-off schema bootstrap scripts with no runtime logic. They are not part of this model.
