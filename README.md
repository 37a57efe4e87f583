# Surtitienda Comunitaria — a verified model of the shop's core

The Surtitienda Comunitaria is a small community lunch shop run from a
single Streamlit script, `tienda.py`. The script keeps two tables:

- the **customers** table, with the columns ID, NOMBRE Y APELLIDO COMPLETO,
  TIPO(1), NUMERO, TELEFONO CONTACTO, BARRIO Y/O DIRRECCION, COMUNA and
  DIAS QUE VINO;
- the **sales** table, with the columns # de pedido, Fecha, Cliente,
  Vendedor, Producto, Cantidad, Total, PagoCon and Devuelta.

Its form pages register, update and delete customers, and register and
delete lunch sales at 2500 pesos each. Its "Premios" page ranks the
customers by their attendance streak. A customer's streak is the length
of the longest stretch of their sorted sale dates in which each date is one
day after the previous one; a repeated date breaks the stretch like any
other gap, so the dates d, d+1, d+1, d+2 give a streak of 2.

The project has five modules:

- `Texto` (`texto.dfy`) models Python's `str.strip()` and `str.lower()`.
  Registration compares names by these.
- `Registros` (`registros.dfy`) holds the two row types and the pure logic
  the operations are built from:
  - the registration checks;
  - the next ID and the next order number;
  - the change arithmetic;
  - the visit counter update;
  - the per-order and per-customer filters over the sales table;
  - the accumulated total.

  It also holds the invariants of well-formed tables and the lemmas that
  each operation preserves them.
- `Asistencia` (`racha.dfy`) models `calcular_racha`.
  - The method `CalcularRacha` keeps the source's loop. It is proved equal
    to a specification function, `Racha`.
  - `Racha` is proved to be the length of the longest run of consecutive
    days in the sorted dates, and to ignore the order of the dates.
- `Premios` (`premios.dfy`) models the ranking.
  - The distinct names are taken in table order, as pandas `unique()`
    gives them.
  - The stable descending sort by streak is modelled: longest first, ties
    in table order.
- `Tienda` (`tienda.dfy`) holds the class `Surtitienda`. Its fields are the
  two tables. Its methods are the form actions, each proved to keep the
  tables well formed and to produce exactly the new state the script
  produces. The module ends with a worked scenario:
  - Ana is registered;
  - she buys lunch on three consecutive days;
  - the middle sale is cancelled.

  After the cancellation her DIAS QUE VINO stays at 3 while her streak
  drops to 1.

Deleting a sale (`tienda.py:173-176`) removes only the sale rows and
leaves DIAS QUE VINO as it is, so the counter can drift from the number of
stored sales. `Registros.EliminarVentaDescuadra` exhibits tables where
this happens; the scenario method `Tienda.CancelarDiaDelMedio` walks
through it step by step, with assertions rather than a contract.

Sales reference customers by name, exactly as in the code. A sale adds a
visit to every customer row whose name equals the sale's customer name
exactly. The streak report collects a customer's sales by exact name.

Dates are day numbers. A date is written as "%Y-%m-%d" and parsed back.
Two parsed dates are one day apart exactly when their day numbers differ
by one.

## Model

| member | source | states |
|---|---|---|
| Texto.StripLeft | tienda.py:64 | the result is a suffix of the input; every character dropped is whitespace in the sense of `str.isspace`; the result is empty or does not start with whitespace |
| Texto.StripRight | tienda.py:64 | the result is a prefix of the input; every character dropped is whitespace; the result is empty or does not end with whitespace |
| Texto.Strip | tienda.py:64-68 | `strip()` yields a contiguous slice of the input with only whitespace around it, and the slice neither starts nor ends with whitespace |
| Texto.RecorteDeStrip | tienda.py:64-68 | cutting a whitespace prefix and then a whitespace suffix leaves a slice of the original string surrounded by whitespace only |
| Texto.StripLeftPadding | tienda.py:64 | leading whitespace added before a name does not change what the left strip gives |
| Texto.StripRightPadding | tienda.py:64 | trailing whitespace added after a name does not change what the right strip gives |
| Texto.StripLeftAppend | tienda.py:64 | trailing whitespace survives the left strip unless the whole string is whitespace |
| Texto.StripPadding | tienda.py:64 | names differing only by surrounding whitespace have the same `strip()` and the same comparison key `strip().lower()` |
| Texto.LowerChar | tienda.py:64 | a capital (ASCII A-Z, or Latin-1 U+00C0-U+00DE other than U+00D7) moves 32 code points up to its small letter; every other character is returned unchanged; the result is never a capital |
| Texto.Lower | tienda.py:64 | `lower()` keeps the length and lower-cases each character in its own position |
| Texto.Clave | tienda.py:64 | the comparison key `strip().lower()` is no longer than the name and contains no capital |
| Texto.LowerCharFacts | tienda.py:64 | lower-casing a character neither creates nor removes whitespace, and applying it twice equals applying it once |
| Texto.StripLeftLower | tienda.py:64 | stripping leading whitespace and lower-casing commute |
| Texto.StripRightLower | tienda.py:64 | stripping trailing whitespace and lower-casing commute |
| Texto.ClaveConmuta | tienda.py:64 | the key `strip().lower()` equals `lower().strip()`, so the order of the two steps does not matter |
| Texto.ClaveIgnoraMayusculas | tienda.py:64 | two names that differ only in letter case have the same key |
| Texto.LowerSinBordes | tienda.py:64 | a lower-cased string without whitespace at its ends is left unchanged by `strip()` |
| Texto.LowerIdempotente | tienda.py:64 | `lower()` is idempotent |
| Texto.ClaveIdempotente | tienda.py:64 | the comparison key of a comparison key is the key itself |
| Registros.Maximo | tienda.py:71 | `max()` of a non-empty column is an element of it and no element exceeds it |
| Registros.SiguienteId | tienda.py:71 | the next ID is 1 for an empty table; otherwise it is one more than an ID in use and larger than every ID in use |
| Registros.Indice | tienda.py:96 | `index[0]` of the rows with a given name is a row with that name, and no earlier row has it |
| Registros.OrNA | tienda.py:56-59 | `x or "N/A"` is never empty, keeps any non-empty text as typed, and is "N/A" exactly when the field was empty or was "N/A" |
| Registros.NombreUsado | tienda.py:64 | a name is in use exactly when its key `strip().lower()` is among the values of the normalised name column |
| Registros.DatoUsado | tienda.py:66-68 | a number or phone is in use exactly when, stripped, it is not "N/A" and is among the stripped values of its column |
| Registros.Revisar | tienda.py:62-86 | a registration is accepted exactly when the name is non-empty, no row has the same stripped lower-cased name, and the number and the phone (unless "N/A") are not already in their columns; a refusal names the first check that fails, in the order empty name, repeated name, repeated number, repeated phone |
| Registros.DatoNuevoConservaUnicos | tienda.py:66-68 | appending a value the duplicate check lets through keeps the non-"N/A" stripped values of a column pairwise distinct |
| Registros.ColumnasTrasAlta | tienda.py:72-82 | appending a row extends each column by that row's value |
| Registros.NombreNuevoConservaClaves | tienda.py:64 | appending a name whose key is not in use keeps the name keys pairwise distinct |
| Registros.AltaConservaUnicidad | tienda.py:62-82 | an accepted registration keeps names, numbers and phones free of duplicates |
| Registros.AltaConservaTabla | tienda.py:71-82 | a row appended with the next ID and no visits keeps the IDs increasing along the table, and its ID exceeds every ID in use |
| Registros.SinFilaConservaClientes | tienda.py:116-117 | a well-formed customers table with one row removed keeps IDs increasing and counters non-negative |
| Registros.Devuelta | tienda.py:135 | the change is never negative; when the payment covers the total, total plus change equals the payment; otherwise it is 0 |
| Registros.VentaConservaTabla | tienda.py:143-155 | a coherent sale appended with the next order number keeps order numbers increasing and every sale coherent |
| Registros.SinPedido | tienda.py:174 | filtering out order `p` keeps exactly the rows of other orders and never lengthens the table |
| Registros.SinPedidoConservaTabla | tienda.py:174 | deleting an order keeps the sales table well formed |
| Registros.SinFilaConservaTabla | tienda.py:174 | a well-formed sales table with one row removed is well formed |
| Registros.SinPedidoQuitaUna | tienda.py:174 | since order numbers are unique, deleting an existing order removes exactly one row |
| Registros.SinPedidoAusente | tienda.py:174 | deleting an order no row carries leaves the table unchanged |
| Registros.SinPedidoConservaTodas | tienda.py:174 | when no row carries order `p`, the filter keeps every row |
| Registros.SinPedidoConcat | tienda.py:174 | the filter distributes over concatenation of tables |
| Registros.SinPedidoQuitaFila | tienda.py:174 | deleting the order of row `i` of a well-formed table removes that row and keeps all others in order |
| Registros.SinPedidoEnMedio | tienda.py:174 | a row whose order number no other row carries is the only row its deletion removes |
| Registros.SinPedidoCabeza | tienda.py:174 | deleting the order of the first row, when no later row carries it, leaves exactly the later rows |
| Registros.OtrasFilasOtroPedido | tienda.py:143 | in a well-formed table no other row shares a row's order number |
| Registros.FechasDe | tienda.py:204 | a customer's dates are no more than the sales; every date comes from a sale in that customer's name, and every sale in that name contributes its date |
| Registros.FechasTrasVenta | tienda.py:155 | recording a sale adds its date to its own customer's dates, at the end, and to no other customer's |
| Registros.SumarVisita | tienda.py:158-160 | the table keeps its length; each row gains exactly one visit when its name is exactly the sale's customer name and none otherwise; no other field changes |
| Registros.VentaConservaVisitas | tienda.py:155-160 | if every DIAS QUE VINO equals the number of sales in that name, recording a sale keeps it so |
| Registros.EliminarVentaDescuadra | tienda.py:173-176 | there are tables where the counters match the sales but stop matching after a sale is deleted, since deletion leaves DIAS QUE VINO alone |
| Registros.TotalVentas | tienda.py:182 | the total of no sales is 0, and a table without negative totals has a non-negative total |
| Registros.TotalTrasVenta | tienda.py:182 | recording a sale raises the accumulated total by that sale's total |
| Registros.TotalTrasEliminar | tienda.py:174-182 | with non-negative totals, deleting an order never raises the accumulated total |
| Registros.TotalConcat | tienda.py:182 | the total of two tables put together is the sum of their totals |
| Registros.TotalEnMedio | tienda.py:182 | a row between two tables adds exactly its own total |
| Registros.TotalSinFila | tienda.py:174-182 | removing row `i` lowers the total by exactly that row's total |
| Registros.TotalTrasEliminarFila | tienda.py:174-182 | in a well-formed table, deleting the order of row `i` lowers the accumulated total by exactly that row's total |
| Asistencia.Insertar | tienda.py:192 | inserting into a sorted list gives a sorted list one longer, headed by the smaller of the value and the old head |
| Asistencia.InsertarPermuta | tienda.py:192 | inserting adds exactly that value to the multiset of dates |
| Asistencia.Ordenar | tienda.py:192 | `sorted` yields an ascending list of the same length |
| Asistencia.OrdenarPermuta | tienda.py:192 | `sorted` yields a permutation of the dates |
| Asistencia.OrdenadaUnica | tienda.py:192 | two sorted lists with the same multiset of elements are equal |
| Asistencia.OrdenadaEmpiezaPorMinimo | tienda.py:192 | a sorted list starts with its smallest element |
| Asistencia.RachaHasta | tienda.py:193-199 | the current run at position `k` is between 1 and `k + 1` |
| Asistencia.MejorRacha | tienda.py:193-200 | the best run over the first `n` dates is 0 for none and between 1 and `n` otherwise |
| Asistencia.Racha | tienda.py:189-200 | the streak is 0 exactly when there are no dates, and otherwise between 1 and the number of dates |
| Asistencia.CalcularRacha | tienda.py:189-200 | the loop's result equals the streak `Racha`: 0 for no dates, otherwise the longest run over the sorted dates |
| Asistencia.RachaHastaEsMaxima | tienda.py:194-199 | the current run at `k` is a run of consecutive days ending at `k`, and no such run is longer |
| Asistencia.MejorRachaEsMaxima | tienda.py:193-200 | the best run so far is the length of some run within the first `n` dates, and none there is longer |
| Asistencia.RachaEsLaMasLarga | tienda.py:189-200 | the streak is 0 for no dates; otherwise the sorted dates contain a run of consecutive days of exactly that length and none longer |
| Asistencia.TramoDistinto | tienda.py:195 | the days of a run are pairwise distinct |
| Asistencia.TramoCrece | tienda.py:195 | within a run, each day is one day after the previous |
| Asistencia.RachaDiasDistintos | tienda.py:189-200 | the streak never exceeds the number of distinct sale days |
| Asistencia.SubconjuntoMenor | tienda.py:189-200 | a subset of a set of days is no larger than the set |
| Asistencia.RachaSinOrden | tienda.py:192 | the streak depends only on the multiset of dates, not on their order in the table |
| Asistencia.OrdenarOrdenada | tienda.py:192 | sorting already sorted dates changes nothing, so their streak is their longest run as they stand |
| Asistencia.RachaConsecutivos | tienda.py:194-197 | dates that follow one another day by day give a streak as long as the list |
| Asistencia.RachaTresDias | tienda.py:194-197 | three consecutive days give a streak of 3 |
| Asistencia.RachaTresDiasDesordenados | tienda.py:192 | the same three days listed out of order still give 3 |
| Asistencia.RachaConHueco | tienda.py:198-199 | a two-day gap resets the run, giving 1 |
| Asistencia.RachaDiaRepetido | tienda.py:195-199 | a repeated day resets the run like any other gap, so `[d, d, d+1]` gives 2 |
| Asistencia.RachaDuplicadoEnMedio | tienda.py:195-199 | a repeated day inside consecutive days splits them: `[d, d+1, d+1, d+2]` gives 2, not 3 |
| Asistencia.RachaUnDia | tienda.py:193 | a single date gives a streak of 1 |
| Premios.IndiceTrasAnadir | tienda.py:203 | appending a name does not move the first appearance of a name already present |
| Premios.IndiceDelNuevo | tienda.py:203 | a name new to the column first appears at the end once appended |
| Premios.Unicos | tienda.py:203 | `unique()` contains exactly the names of the column, each once |
| Premios.UnicosEnOrden | tienda.py:203 | `unique()` lists the names in the order of their first appearance |
| Premios.InsertarPorRacha | tienda.py:208 | inserting a row into a report sorted by descending streak keeps it sorted and makes it one row longer |
| Premios.InsertarPorRachaPermuta | tienda.py:208 | inserting adds exactly that row to the multiset of rows |
| Premios.ConRachaInsertar | tienda.py:208 | the inserted row goes before the rows already there with its streak, which keep their order |
| Premios.OrdenarPorRacha | tienda.py:208 | `sorted(key=streak, reverse=True)` gives a descending permutation of the rows in which rows with equal streaks keep their relative order |
| Premios.Resultados | tienda.py:202-206 | one row per name, in the order of the names, each pairing the name with the streak of its own sale dates |
| Premios.ResultadosTrasAnadir | tienda.py:203-206 | one more name appends its row, the name with its streak, at the end of the results |
| Premios.RankingRachas | tienda.py:202-208 | the report equals the stable sort of one (name, streak) row per distinct name; it is sorted by descending streak, has one row per distinct name, every row carries its name's own streak, and every customer name appears |
| Premios.ReporteCompleto | tienda.py:202-208 | the sorted report has one row per name, pairs each name with its streak, and leaves out no name |
| Tienda.Surtitienda.constructor | tienda.py:19-34 | a shop without files starts with both tables empty and well formed |
| Tienda.Surtitienda.RegistrarCliente | tienda.py:56-86 | an empty optional field becomes "N/A"; a refused registration reports the first failing check and changes nothing; an accepted one appends the row with the next ID, larger than every ID in use, and 0 visits; IDs stay increasing and a duplicate-free table stays duplicate-free |
| Tienda.Surtitienda.ActualizarCliente | tienda.py:95-112 | only the first row with the selected name changes; it takes the form's values and keeps its ID and DIAS QUE VINO |
| Tienda.Surtitienda.EliminarCliente | tienda.py:116-117 | exactly the first row with the selected name is removed, the others keep their order, and the sales are untouched |
| Tienda.Surtitienda.RegistrarVenta | tienda.py:131-161 | a payment below 2500 times the quantity is refused and changes nothing; otherwise one sale is appended with the next order number, the day given, the total and the change, and every row with exactly that customer name gains a visit; counters that matched the sales still match |
| Tienda.Surtitienda.EliminarVenta | tienda.py:173-176 | the new sales table is the old one without the rows of the order, exactly one row fewer when the order exists and unchanged otherwise; the customers, DIAS QUE VINO included, are untouched |
| Tienda.VisitaDeAna | tienda.py:158-160 | a sale in Ana's name adds one visit to her row |
| Tienda.TiendaConAna | tienda.py:56-84 | registering Ana in a new shop with only name and type gives ID 1, "N/A" in the empty fields and 0 visits |
| Tienda.PedidosDeAna | tienda.py:143 | after one sale the next order number is 2, after two it is 3 |
| Tienda.DosDiasSeguidos | tienda.py:139-161 | two paid sales on consecutive days get order numbers 1 and 2 and bring Ana's counter to 2 |
| Tienda.FechasDeAna | tienda.py:204 | after three sales on consecutive days Ana's dates are those three days in order |
| Tienda.FechasDeAnaSinMedio | tienda.py:204 | once the middle sale is deleted Ana's dates are the first and the last day |
| Tienda.RachasDeAna | tienda.py:189-205 | Ana's streak is 3 over three consecutive days and 1 once the middle day is deleted |
| Tienda.TresDiasSeguidos | tienda.py:139-161 | a third paid sale on the next day gets order number 3 and brings Ana's counter to 3 |

## Left out

- The Streamlit interface (menus, widgets, messages, `st.dataframe` display) is not modelled. Each form action is one method call whose arguments are the widget values.
- Excel persistence is not modelled: `cargar_datos`, `guardar_clientes` and `guardar_ventas` (`tienda.py:19-41`). The script reloads both tables on every rerun, so a row's index label is its position. The model uses positions for `idx`.
- The clock is not modelled. `datetime.now()` at line 146 becomes the parameter `hoy`. Dates are day numbers, and formatting with `strftime` and parsing with `strptime` are not modelled.
- pandas dtypes are not modelled. That covers `astype(str)`, NaN cells and `dropna`, the 64-bit integer columns, and a NUMERO read back from Excel as a number. All cells are strings or unbounded integers.
- `Texto.LowerChar` lower-cases only ASCII and the Latin-1 capitals. Python's full Unicode case mapping is not modelled.
- `Tienda.Surtitienda.ActualizarCliente`: the `ValueError` at line 100 for a TIPO that is neither "CC" nor "TI" is not modelled. The update runs no duplicate check, as in the code. So `Valid` speaks of IDs and counters only, not of name, number or phone uniqueness.
- `Tienda.Surtitienda.RegistrarVenta` requires `cantidad >= 1` and `pago >= 0`, which the `number_input` bounds at lines 131 and 134 enforce. The customer may be any string: the list of names offered at line 126 is not imposed.
- Deleting or renaming a customer leaves the sales in the old name, and a later streak report does not list that name. The model keeps this behaviour as it is.
- The `unique()` values of a column with NaN cells are not modelled. Every name is a string.
