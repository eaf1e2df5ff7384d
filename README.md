# Client/property matching and per-company zones, in Dafny

This project models two routers of a real-estate back end in which each
company (`compania`) keeps client requests (`clientes`) and property
listings (`pisos`):

- `routers/match.py` — the basic matcher `match_basico`, a yes/no check of
  one client against one property (same zone, price within the client's
  capacity of `entrada * 10000`, at least the requested rooms and
  bathrooms), and the `/match/` endpoint `obtener_matches`, which loads the
  user's company's clients and properties and collects
  `{cliente_id, piso_id}` for every passing pair with two nested loops.
  Module `Match` (`match.dfy`).
- `routers/companias_zonas.py` — the table of named zones per company and
  its four endpoints: read a company's zones (tenant-checked), read the
  user's company's zones with a fallback to nine default zones, replace all
  of a company's zones, and delete one zone. The table is a class,
  `CompaniasZonas.ZonaTable` (`companias_zonas.dfy`), whose rows
  `(id, compania_id, zona)` are a sequence in insertion order; the
  endpoints that change it are methods with `modifies this`.
- The zone names are normalised with Python's `strip().upper()`; module
  `PyText` (`py_text.dfy`) models both on `seq<char>`.

Modelling choices:

- `banos`, `precio` and `entrada` are integers, as the endpoints that
  create the records take them (`clientes.py:8`, `pisos.py:8`). `zona` is a
  string, as `models.py:25` declares it on `Cliente`, while those endpoints
  take it as an `int`; `match_basico` only compares zones for equality
  (`routers/match.py:28`), so either choice gives the same matches.
  `models.py` declares `banos` as `String` (models.py:31, models.py:63) and
  `precio` as `Float`; it has no `entrada` column on `Cliente` and no `zona`
  column on `Piso`, although `match_basico` reads both. The model follows
  the code that reads them. What the `String` declaration of `banos` would do to the
  comparison is under "## Findings".
- The two database queries of `obtener_matches` are the filters
  `ClientesDe` and `PisosDe` over input sequences, in their given order;
  the user is represented by its `compania_id`.
- The zone table's ids are the primary key handed out by the database.
  The model keeps an id counter `nextId` and the invariant `Keyed`: ids
  strictly increase along the table and lie in `[1, nextId)`. The
  declaration of the `compania_zonas` table is not part of this model; the
  key is the one the `.first()` lookup of the delete endpoint relies on.
- HTTP errors are values of `ApiError`: `Forbidden` (403), `NotFound`
  (404), and `ServerError(cause)` (the 500 with which the create endpoint
  re-raises whatever it caught).

## Model

| member | source | states |
|---|---|---|
| Match.MatchBasico | routers/match.py:26-44 | Rejects when the zones differ, when the price exceeds `entrada * 10000`, when the property has fewer rooms, or when it has fewer bathrooms, whatever the other fields are; accepts whenever all four checks pass, so a price equal to the capacity and equal room and bathroom counts pass |
| Match.MatchBasicoMonotone | routers/match.py:27-42 | A property in the same zone that is no dearer and has at least the rooms and bathrooms of one that matches a client also matches that client |
| Match.OfCompania | routers/match.py:10-11 | The client and property queries return at most as many records as there are |
| Match.OfCompaniaMembers | routers/match.py:10-11 | The client query returns exactly the clients, and the property query exactly the properties, of the user's company |
| Match.RowMatches | routers/match.py:16-21 | The inner loop appends at most one entry per property |
| Match.MatchesLength | routers/match.py:13-23 | The result has at most \|clientes\|·\|pisos\| entries |
| Match.CollectMatches | routers/match.py:13-23 | The nested loops return exactly the client-major sequence of passing pairs that `Matches` defines |
| Match.ObtenerMatches | routers/match.py:9-23 | The endpoint returns the passing pairs of the company's clients and properties, client-major |
| Match.RowCellsSound | routers/match.py:16-21 | Each entry the inner loop appends comes from a property that passes the matcher with that client |
| Match.RowCellsSorted | routers/match.py:16-21 | The inner loop appends in property order |
| Match.RowCellsComplete | routers/match.py:16-21 | Every property that passes with the client gets its entry in the row |
| Match.MatchCellsSound | routers/match.py:15-21 | Each entry of the result is the ids of a (client, property) pair that passes the matcher |
| Match.MatchCellsSorted | routers/match.py:15-16 | The entries come from (client index, property index) cells in strictly increasing client-major order |
| Match.MatchCellsComplete | routers/match.py:15-21 | Every passing (client, property) pair has its cell in the result |
| Match.ObtenerMatchesSound | routers/match.py:10-21 | Every `{cliente_id, piso_id}` returned belongs to a client and a property of the user's company that pass `match_basico` |
| Match.ObtenerMatchesComplete | routers/match.py:10-21 | Every client and property of the user's company that pass `match_basico` appear as a pair in the result |
| Match.ObtenerMatchesOrdered | routers/match.py:13-23 | The result lists passing pairs outer loop over clients, inner over properties, each entry from a strictly later cell than the one before, and has at most \|clientes\|·\|pisos\| entries |
| Match.BanosAsStoredRejectsTenForTwo | routers/match.py:41-42 | Compared as stored text, ten bathrooms fail a request for two, while the integer matcher accepts the same pair |
| PyText.SkipSpace | routers/companias_zonas.py:71 | The start of the stripped name lies within the name |
| PyText.SkipSpaceBack | routers/companias_zonas.py:71 | The end of the stripped name lies between its start and the end of the name |
| PyText.SkipSpaceSkipsSpace | routers/companias_zonas.py:71 | `strip()` drops exactly the leading whitespace and stops at a non-whitespace character |
| PyText.SkipSpaceBackSkipsSpace | routers/companias_zonas.py:71 | `strip()` drops exactly the trailing whitespace and stops after a non-whitespace character |
| PyText.StripTrims | routers/companias_zonas.py:71 | `strip()` keeps the contiguous part of the name between leading and trailing whitespace, which starts and ends with a non-whitespace character |
| PyText.NormalizeShape | routers/companias_zonas.py:71 | A normalised name has no whitespace at either end, no letter `UpperChar` maps (a–z, à–þ except ÷) and, in the model, is no longer than the input |
| PyText.NormalizeIdempotent | routers/companias_zonas.py:71 | `strip().upper()` applied twice gives the same name as once |
| CompaniasZonas.ZonasOf | routers/companias_zonas.py:29 | The company query returns at most as many rows as the table has |
| CompaniasZonas.ZonasOfMembers | routers/companias_zonas.py:29 | The company query returns exactly the rows with that `compania_id` |
| CompaniasZonas.WithoutCompania | routers/companias_zonas.py:64 | The bulk delete leaves at most as many rows as there were |
| CompaniasZonas.WithoutCompaniaMembers | routers/companias_zonas.py:64 | The bulk delete removes exactly the rows of that company |
| CompaniasZonas.ZonasOfAppend | routers/companias_zonas.py:29 | The company query over two parts of the table is the query over each part, in order |
| CompaniasZonas.ZonasOfWithout | routers/companias_zonas.py:64 | After the bulk delete for a company it has no zones, and every other company's zones are as before, in order |
| CompaniasZonas.ZonasOfNewRows | routers/companias_zonas.py:68-73 | The rows the create loop adds all belong to the company named in the request |
| CompaniasZonas.NewRowsSnoc | routers/companias_zonas.py:68-73 | Each loop iteration adds one row, for the next name, at the end |
| CompaniasZonas.ReplaceZonasOwn | routers/companias_zonas.py:64-73 | After a create, the company's zones are exactly the input names with `strip().upper()` applied, in input order, duplicates kept |
| CompaniasZonas.ReplaceZonasOthers | routers/companias_zonas.py:64 | A create for one company leaves every other company's zones unchanged |
| CompaniasZonas.FindZona | routers/companias_zonas.py:95-98 | The search finds the first row whose id and company both match, or reports that no row matches both |
| CompaniasZonas.KeyedIdsIncrease | routers/companias_zonas.py:95-98 | In a keyed table every id is in range and ids strictly increase, so no id occurs twice |
| CompaniasZonas.KeyedWiden | routers/companias_zonas.py:95-98 | Widening the id range keeps a table keyed |
| CompaniasZonas.KeyedAppend | routers/companias_zonas.py:69-73 | Appending rows with higher ids to a keyed table keeps it keyed |
| CompaniasZonas.WithoutCompaniaKeyed | routers/companias_zonas.py:64 | The bulk delete keeps the table keyed |
| CompaniasZonas.NewRowsKeyed | routers/companias_zonas.py:68-73 | The rows a create adds have consecutive fresh ids |
| CompaniasZonas.ReplaceZonasKeyed | routers/companias_zonas.py:64-76 | A create keeps the table keyed, with the id counter moved past the new rows |
| CompaniasZonas.DeleteKeepsKeyed | routers/companias_zonas.py:103-104 | Deleting one row keeps the table keyed |
| CompaniasZonas.DeleteRemovesOne | routers/companias_zonas.py:103-104 | Deleting one row removes that row and keeps every row with a different id |
| CompaniasZonas.ZonaTable.GetZonasByCompania | routers/companias_zonas.py:19-30 | Fails with 403 exactly when the user's company differs from the requested one; otherwise returns exactly the rows of that company, in table order |
| CompaniasZonas.ZonaTable.GetZonasCurrentCompania | routers/companias_zonas.py:32-46 | Returns the user's company's rows when it has any; otherwise the nine default zones in their fixed order, each with id 0 and the user's company; never an empty list |
| CompaniasZonas.ZonaTable.CreateZonasForCompania | routers/companias_zonas.py:48-88 | For an unknown company fails with a 500 wrapping the 404 and leaves the table unchanged; otherwise replaces the company's rows with one normalised row per input name and answers with the success message naming the company, the raw names and their count, keeping the table keyed |
| CompaniasZonas.ZonaTable.DeleteZona | routers/companias_zonas.py:90-106 | Fails with 404 and changes nothing when no row matches both id and company; otherwise removes exactly the first such row, keeps the rest in order, and names the deleted zone in its message |

## Left out

- The database session: `commit`, `refresh`, `rollback` and the query
  engine are replaced by the sequence operations above. A failure of the
  database itself inside the create endpoint's `try` (which would also be
  re-raised as a 500 after the rollback) is not modelled; the one failure
  modelled there is the unknown company.
- Authentication: `get_current_user` (JWT decoding, user lookup) is
  represented only by the user's `compania_id` passed as a parameter.
- The `print` warning of the fallback endpoint (console output).
- The `message` texts are modelled as strings; `str(e)` inside the 500's
  detail is not.
- PyText.UpperChar: Python's `str.upper()` maps every Unicode lower-case
  letter; the model maps ASCII `a`–`z` and Latin-1 `à`–`þ` (except `÷`)
  and leaves every other character unchanged, which covers the letters of
  Spanish zone names but not, for instance, `ÿ`, `µ` or `ß` (which Python
  expands to two letters).
- PyText.NormalizeShape: the length bound and the absence of lower-case
  letters rest on the restricted `UpperChar`; Python's `"ß".upper()` is
  `"SS"`, longer than its input, and `ÿ`, `µ`, `ß` stay lower-case in the
  model.
- Float prices: `precio` is an integer, as the property endpoint takes it.
- The rest of the repository (application wiring, authentication,
  registration, the single-row create endpoints for users, companies,
  clients and properties, advisor assignment) is not part of this model.

## Findings

| source | as written | input that shows it | evidently intended | confidence | as-written member | corrected member |
|---|---|---|---|---|---|---|
| routers/match.py:41-42 with models.py:31, models.py:63 | `banos` is a `String` column on both tables, so `piso.banos < cliente.banos` compares the stored counts as text, character by character | property `banos = "10"`, client `banos = "2"`: `"10" < "2"` holds, so the property is rejected although it has more bathrooms than requested | compare bathroom counts as numbers ("Baños mínimos"), as the create endpoints take them (`banos: int`) | medium, not executed | Match.BanosOkAsStored (shown by Match.BanosAsStoredRejectsTenForTwo) | Match.MatchBasico |
