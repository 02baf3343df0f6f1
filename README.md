# To-do list: owner-scoped task tables, client filter and due-date badge

A Dafny model of the logic of a small multi-user to-do application:

- **Server** (`backend/Program.cs`): the `Tareas` and `Usuarios` tables and
  the six endpoint handlers — list, create, update and delete tasks, log in,
  register. Every task lookup uses the compound key (task id, owner id).
  The database context is the class `Backend.AppDb`: its two tables are
  sequence fields, and each endpoint is a method that reads or updates them
  in one atomic step. BCrypt is given to the store as a pair of functions
  `hashPassword(password, salt)` and `verify(password, hash)`. The only
  thing known about them is that a password verifies against its own hash,
  whatever the salt. The salt, which BCrypt draws at random, is a parameter
  of `Registro`. Task and user ids are the database's identity values: the
  store hands out the next value of a counter. The invariant `Valid()`
  keeps ids and usernames unique.
- **Client filter** (`frontend/src/App.tsx`): building the task that
  `crearTarea` posts, the record `toggleTarea` sends, and the predicate
  behind `tareasFiltradas` for the filter names `todos`, `completadas`,
  `pendientes`, `vencidas` and any other string.
- **Task card** (`frontend/src/assets/components/TaskCard.tsx`): the
  flags `fechaVencio` and `fechaHoy`, and the date badge they choose.

Dates are calendar days (`Dates.CalendarDay`, leap years included). Text is
read as a day by `Dates.ParseIsoDate` ("YYYY-MM-DD") and
`Dates.ParseIsoDateTime` ("YYYY-MM-DD", alone or followed by a time part
"THH:mm", optionally with ":ss", a fraction and a zone; the time part is
checked but does not move the day). Today's date is a parameter. The module `Wire`
models the JSON boundary: a stored due date is sent as
"YYYY-MM-DDT00:00:00", and a client body is bound to a server `Tarea`. Its
lemmas follow one task from the client to the server and back.
`Backend.EscenarioAltaYLogin` and `Backend.EscenarioTareas` are clients of
the endpoint contracts: a registration, a refused duplicate, failed and
successful logins, and one task of two owners from creation to deletion.

Behaviour of the code that the model keeps as written:

- `fechaHoy` compares only the day of the month (`getDate()`), not the whole
  date. A task due on the 15th of an earlier month is therefore overdue and
  "today" at once: the badge is red and shows both labels.
  `TaskCard.HoyIgnoraMesYAnio` exhibits such a task, and `TaskCard.VenceHoyEsHoy`
  shows that a task due exactly today is flagged "today".
- The server does not reject an empty task name. Only the client's
  `crearTarea` refuses empty text.
- A duplicate username is answered with 400 Bad Request, not a distinct
  conflict status.
- The filter names are the Spanish strings. The initial filter value
  `'todas'` matches no branch, so it shows every task, as `'todos'` does.

## Model

| member | source | states |
|---|---|---|
| `Seqs.Filter` | backend/Program.cs:104-106 | the filtered list holds exactly the elements of the input that satisfy the predicate, and is no longer than the input |
| `Seqs.FirstIndex` | backend/Program.cs:116-117 | `FirstOrDefault` as a position: the found element satisfies the predicate and none before it does; nothing is found iff no element satisfies it |
| `Seqs.FilterIsSubsequence` | frontend/src/App.tsx:83 | a filtered list is an order-preserving subsequence of its input |
| `Seqs.FilterPartition` | frontend/src/App.tsx:86-88 | two complementary predicates split a list into two parts whose multisets add up to the list |
| `Dates.ParseFormatIsoDate` | frontend/src/App.tsx:95-96 | a calendar day written as "YYYY-MM-DD" reads back as the same day |
| `Dates.FormatParseIsoDate` | frontend/src/App.tsx:95-96 | every text that reads as a day is exactly that day's "YYYY-MM-DD" form (parsing is injective) |
| `Dates.ParseIsoDateTimeNamesDay` | frontend/src/assets/components/TaskCard.tsx:17-19 | a text reads as a given day iff its first ten characters are that day's "YYYY-MM-DD" form and the rest is empty or a well-formed time part (hours below 24, minutes and seconds below 60, optional fraction and zone) |
| `Dates.ParseIsoDateTimeOfFormat` | backend/Program.cs:184 | a stored day serialised with any well-formed time part reads back as that day |
| `Backend.TareasDe` | backend/Program.cs:103-106 | the owner's listing holds exactly the stored tasks with that owner id |
| `Backend.BuscarTarea` | backend/Program.cs:115-118 | the compound-key lookup finds nothing iff no task has that id and owner; otherwise it finds the first such task |
| `Backend.Actualizada` | backend/Program.cs:121-122 | an update takes the name and completion from the body and keeps id, owner and due date of the stored task |
| `Backend.TareasDeTrasCrear` | backend/Program.cs:103-113 | after a task is appended, its owner's listing is the old listing plus that task at the end, and every other user's listing is unchanged |
| `Backend.IdAjenoNoEncontrado` | backend/Program.cs:116-119 | with unique ids, a task's id asked for under any other user id matches no task, so PUT and DELETE answer NotFound |
| `Backend.QuitarEn` | backend/Program.cs:134 | removing one row of a table with unique ids keeps ids unique and keeps exactly the rows with another id |
| `Backend.EncontradaUnica` | backend/Program.cs:129-130 | with unique ids, the row the compound-key lookup finds is the only row matching that key |
| `Backend.NombreTomadoTrasAlta` | backend/Program.cs:163-169 | once a user is added, the name is taken, so a second registration under it is refused |
| `Backend.AutenticaTrasAlta` | backend/Program.cs:145-166 | a user registered with a password authenticates with that password |
| `Backend.AppDb.constructor` | backend/Program.cs:194-199 | a new store has empty tables and satisfies the store invariant |
| `Backend.AppDb.GetTareas` | backend/Program.cs:103-107 | returns exactly the tasks owned by the given user, in table order; nothing changes |
| `Backend.AppDb.PostTarea` | backend/Program.cs:109-113 | appends the posted task under a fresh id with every other field as posted and returns it; the users table and existing tasks are untouched; ids stay unique |
| `Backend.AppDb.PutTarea` | backend/Program.cs:115-126 | NotFound and no change iff no task matches (id, owner); otherwise exactly the first match gets the body's name and completion, and nothing else changes |
| `Backend.AppDb.DeleteTarea` | backend/Program.cs:128-137 | NotFound and no change iff no task matches (id, owner); otherwise exactly that task is removed, every other task remains |
| `Backend.AppDb.Login` | backend/Program.cs:139-159 | success iff a user with that name exists and the password verifies against the stored hash, returning that user's name and id; otherwise Unauthorized in both failure cases; no table changes |
| `Backend.AppDb.Registro` | backend/Program.cs:161-172 | a taken name gives BadRequest and no change; otherwise exactly one user is added, with a fresh id and the password's hash as stored password; tasks untouched |
| `App.CrearTarea` | frontend/src/App.tsx:45-49 | nothing is posted iff the text is empty or nobody is logged in; otherwise the task is not done, belongs to the logged-in user, and has no due date iff the date input is empty |
| `App.ToggleTarea` | frontend/src/App.tsx:61-62 | the sent record equals the task with its completion negated |
| `App.PasaFiltro` | frontend/src/App.tsx:83-101 | the predicate behind the filter: every string other than 'completadas', 'pendientes' and 'vencidas' keeps the task, and 'vencidas' keeps only undone tasks with a due text; its exact meaning per filter is stated by `App.FiltrosDeEstado`, `App.FiltroVencidas` and `App.FiltroSinEfecto` |
| `App.TareasFiltradas` | frontend/src/App.tsx:83 | `tareasFiltradas` holds exactly the loaded tasks that pass the filter, and no more tasks than were loaded |
| `App.ToggleInvolutivo` | frontend/src/App.tsx:62 | toggling twice gives back the original record |
| `App.ToggleCambiaDeVista` | frontend/src/App.tsx:61-62 | toggling moves a task between the 'completadas' and 'pendientes' views |
| `App.FechaLimpia` | frontend/src/App.tsx:95-96 | appending "T00:00:00" to the first ten characters reads the day in those ten characters, and no day from a shorter text (reduced forms are not read; see Left out) |
| `App.PasaFiltroVencidas` | frontend/src/App.tsx:90-98 | the 'vencidas' predicate holds iff the task is not done and the first ten characters of its due text name a day before today |
| `App.FiltroSinEfecto` | frontend/src/App.tsx:83-101 | 'todos' and every unrecognised filter string, including the initial 'todas', keep the whole list |
| `App.FiltrosDeEstado` | frontend/src/App.tsx:86-88 | 'completadas' keeps exactly the done tasks and 'pendientes' exactly the others; together they are the whole list as a multiset |
| `App.FiltroVencidas` | frontend/src/App.tsx:90-98 | 'vencidas' keeps exactly the undone tasks whose due text begins with a day before today; tasks with no due date are dropped |
| `App.FiltroEsSubsecuencia` | frontend/src/App.tsx:83-101 | every filter result is an order-preserving subsequence of the loaded tasks |
| `TaskCard.FechaDateDe` | frontend/src/assets/components/TaskCard.tsx:17-19 | the card's date is null exactly for a falsy due text, an invalid date exactly for a truthy text that reads as no day, and otherwise the day the text names |
| `TaskCard.FechaVencio` | frontend/src/assets/components/TaskCard.tsx:22 | `fechaVencio` holds only for an undone task with a due text; on server data `Wire.MarcasSobreServidor` states it exactly (stored day before today) |
| `TaskCard.FechaHoy` | frontend/src/assets/components/TaskCard.tsx:23 | `fechaHoy` holds only for an undone task with a due text; on server data `Wire.MarcasSobreServidor` states it exactly (same day of the month) |
| `TaskCard.InsigniaDe` | frontend/src/assets/components/TaskCard.tsx:33-46 | the badge is shown iff there is a due text; it is red iff overdue, blue iff "today" and not overdue, and each label shows iff its flag holds |
| `TaskCard.SinFechaSinMarcas` | frontend/src/assets/components/TaskCard.tsx:17-23 | a task without a due date is neither overdue nor "today", and has no badge |
| `TaskCard.CompletadaSinMarcas` | frontend/src/assets/components/TaskCard.tsx:22-23 | a done task is never overdue nor "today", whatever its date; its badge is grey |
| `TaskCard.VenceHoyEsHoy` | frontend/src/assets/components/TaskCard.tsx:22-23 | a task due exactly today is "today" and not overdue, with a blue badge |
| `TaskCard.HoyIgnoraMesYAnio` | frontend/src/assets/components/TaskCard.tsx:23 | a task due 2026-09-15, seen on 2026-10-15, is both overdue and "today", is not due today, and gets the red badge with both labels |
| `TaskCard.VencidaTienePrioridad` | frontend/src/assets/components/TaskCard.tsx:36-40 | when both flags hold, the badge is the overdue one |
| `Wire.AlCliente` | backend/Program.cs:178-185 | a stored task is sent with the same id, name and completion, and with a due text (of 19 characters) iff it has a due date |
| `Wire.Enlazar` | backend/Program.cs:178-185 | a body without a due date always binds, and a body with a due text binds iff the text reads as a day of year 1 or later; a bound task keeps id, name, completion and owner, and has a due date iff the body had one, namely the day the body's text reads as |
| `Wire.FechaJsonIdaYVuelta` | backend/Program.cs:184 | the text sent for a stored due date reads back as the same day, and its first ten characters are the day's ISO form |
| `Wire.VencidasSobreServidor` | frontend/src/App.tsx:90-98 | on a task loaded from the server, 'vencidas' keeps it iff it has a stored due day before today and is not done |
| `Wire.MarcasSobreServidor` | frontend/src/assets/components/TaskCard.tsx:17-23 | on a task loaded from the server, overdue iff the stored day is before today and the task is not done; "today" iff the stored day's day of month is today's and the task is not done |
| `Wire.TarjetaYFiltroCoinciden` | frontend/src/assets/components/TaskCard.tsx:22 | the card's overdue flag and the 'vencidas' filter agree on every task the server sends |
| `Wire.ToggleSobreServidor` | frontend/src/App.tsx:61-68 | the body toggleTarea sends binds on the server, and the update it drives flips the stored completion and changes nothing else |
| `Wire.CrearYListar` | frontend/src/App.tsx:45-58 | a task created with a date input (empty or "YYYY-MM-DD") binds iff the date is empty or its year is at least 1; when it binds, it appears in its owner's listing not done, and comes back with a due text that starts with the typed date |

## Left out

- Database and provider configuration (`DATABASE_URL` parsing, the choice of PostgreSQL or SQL Server), CORS, Swagger, table creation and `app.Run`: framework and environment wiring.
- BCrypt's algorithm: `hashPassword` and `verify` are parameters of the store, and only `verify(p, hashPassword(p, salt))` is assumed of them. The model therefore cannot state that a hash differs from the raw password; it states that the stored password is the hash.
- Asynchronous persistence (`SaveChangesAsync`) and concurrent requests: each endpoint is one atomic step, so last-write-wins races are not modelled.
- Username equality follows the database collation in the source; the model uses exact string equality.
- A client-supplied non-zero `Id` in the body of POST /tareas or POST /registro: the model always assigns the next identity value.
- Referential integrity: neither the source nor the model checks that a task's `UsuarioId` names a registered user.
- The order of rows returned by the database: without an ORDER BY it is unspecified; the model returns table order.
- Backend.AppDb.GetTareas: states the listing by membership and order, not by counting duplicates; with unique ids there are none.
- Time zones: `new Date(text)` on a date-only text reads it as UTC while "…T00:00:00" is local; the model reduces both to the calendar day written in the text. On the server, the JSON binder may convert a text carrying a "+HH:mm" offset to the server's local time, which can move the stored day; the model keeps the day written in the text (the client never sends an offset).
- Lenient date parsing: engines that roll over "2021-02-30" or accept non-ISO forms are not modelled; such texts are not a date here, so they are never overdue nor "today".
- Years: the client reads four-digit years 0000-9999; the server's `DateTime` starts at year 1, so a stored due day is a `Backend.FechaServidor` (years 1-9999) and `Wire.Enlazar` refuses a body dated in year 0000. Years beyond 9999 are not modelled.
- Dates.ParseIsoDateTime: ECMAScript also reads the reduced forms "YYYY" and "YYYY-MM" (alone or followed by a time part) as the first day of that year or month, and six-digit signed years; the model reads these as no date. The server never sends them: `Wire.AlCliente` always writes "YYYY-MM-DDT00:00:00".
- Dates.ParseIsoDateTimeNamesDay: the "iff" holds of the model's parser; for a reduced form such as "2026-09" the browser names a day where the model names none (see the line above).
- App.FechaLimpia: "no day from a shorter text" is the model's reading; the browser reads "YYYY" + "T00:00:00" and "YYYY-MM" + "T00:00:00" as the first day of that year or month, so such a task can be overdue in the browser and is not here.
- TaskCard.FechaDateDe: gives `Invalida` for a reduced form such as "2026-09", where the browser has a valid date (September 1); the badge is then grey in the model.
- Dates.ParseIsoDateTime: the time part is checked for its shape only; "T24:00" (which ECMAScript reads as the next midnight) is rejected, and a valid time never moves the day, since time zones are not modelled.
- `substring` counts UTF-16 code units; the model counts characters.
- JSON model-binding failures are reduced to `Wire.Enlazar` returning None (the framework answers 400 before the handler runs).
- The clock: today's date is a parameter of every client-side check.
- The `fetch` calls, `cargarTareas`, `borrarTarea`, `cerrarSesion` and all React state hooks: network I/O and UI state with no logic beyond the calls modelled above.
- `frontend/src/assets/components/Login.tsx`, `Layout.tsx` and `frontend/src/main.tsx`: a fetch with success or error display, rendering and bootstrapping; none of them is part of this model.
