/** The two tables of the shop (customers and lunch sales) as sequences of
    records, and the pure pieces of logic the shop's operations are built
    from: the duplicate checks, the next ID, the price and change arithmetic,
    the visit counter update and the filters over the sales table. */
module Registros {
  import opened Texto

  /** Price of one lunch, in pesos. */
  const Precio: int := 2500

  /** What an empty optional form field is stored as. */
  const NoAplica: string := "N/A"

  /** The only product the sales form records. */
  const Almuerzo: string := "Almuerzo"

  datatype Option<T> = None | Some(value: T)

  /** One row of the customers table (columns ID, NOMBRE Y APELLIDO COMPLETO,
      TIPO(1), NUMERO, TELEFONO CONTACTO, BARRIO Y/O DIRRECCION, COMUNA,
      DIAS QUE VINO). */
  datatype Cliente = Cliente(
    id: int,
    nombre: string,
    tipo: string,
    numero: string,
    telefono: string,
    barrio: string,
    comuna: string,
    dias: int)

  /** One row of the sales table (columns # de pedido, Fecha, Cliente,
      Vendedor, Producto, Cantidad, Total, PagoCon, Devuelta). The date is a
      day number; the customer is referenced by name. */
  datatype Venta = Venta(
    pedido: int,
    fecha: int,
    cliente: string,
    vendedor: string,
    producto: string,
    cantidad: int,
    total: int,
    pagoCon: int,
    devuelta: int)

  /** Why a registration was refused. */
  datatype Motivo = SinNombre | NombreRepetido | NumeroRepetido | TelefonoRepetido

  // Columns of the tables.

  function Ids(cs: seq<Cliente>): seq<int> {
    seq(|cs|, i requires 0 <= i < |cs| => cs[i].id)
  }

  function Nombres(cs: seq<Cliente>): seq<string> {
    seq(|cs|, i requires 0 <= i < |cs| => cs[i].nombre)
  }

  function Numeros(cs: seq<Cliente>): seq<string> {
    seq(|cs|, i requires 0 <= i < |cs| => cs[i].numero)
  }

  function Telefonos(cs: seq<Cliente>): seq<string> {
    seq(|cs|, i requires 0 <= i < |cs| => cs[i].telefono)
  }

  function Pedidos(vs: seq<Venta>): seq<int> {
    seq(|vs|, i requires 0 <= i < |vs| => vs[i].pedido)
  }

  /** The largest value of a non-empty column. */
  function Maximo(s: seq<int>): (m: int)
    requires s != []
    ensures m in s
    ensures forall x :: x in s ==> x <= m
  {
    if |s| == 1 then s[0]
    else
      var m := Maximo(s[1..]);
      assert s == [s[0]] + s[1..];
      if s[0] >= m then s[0] else m
  }

  /** The ID given to a new customer and the number given to a new order:
      1 when the table is empty, otherwise one more than the largest in use.
      It is larger than, hence distinct from, every number in use. */
  function SiguienteId(ids: seq<int>): (r: int)
    ensures ids == [] ==> r == 1
    ensures ids != [] ==> r - 1 in ids
    ensures forall x :: x in ids ==> x < r
  {
    if ids == [] then 1 else Maximo(ids) + 1
  }

  /** The first position of `x` in a column (pandas `index[0]` of the rows
      whose value equals `x`). */
  function Indice<T(==)>(s: seq<T>, x: T): (i: nat)
    requires x in s
    ensures i < |s| && s[i] == x
    ensures forall j :: 0 <= j < i ==> s[j] != x
  {
    if s[0] == x then 0 else 1 + Indice(s[1..], x)
  }

  // Customer registration.

  /** An empty text field of the registration form becomes "N/A" (Python's
      `x or "N/A"`); any other text is kept as typed. */
  function OrNA(s: string): (r: string)
    ensures r != ""
    ensures s != "" ==> r == s
    ensures r == NoAplica <==> s == "" || s == NoAplica
  {
    if s == "" then NoAplica else s
  }

  /** The name column, stripped and lower-cased. */
  function Claves(cs: seq<Cliente>): seq<string> {
    seq(|cs|, i requires 0 <= i < |cs| => Clave(cs[i].nombre))
  }

  /** A column with every value stripped. */
  function Recortados(columna: seq<string>): seq<string> {
    seq(|columna|, i requires 0 <= i < |columna| => Strip(columna[i]))
  }

  /** Some row's name has the same stripped, lower-cased key as `nombre`:
      the key is among the values of the normalised name column. */
  predicate NombreUsado(cs: seq<Cliente>, nombre: string)
    ensures NombreUsado(cs, nombre) <==> Clave(nombre) in Claves(cs)
  {
    assert forall i :: 0 <= i < |cs| ==> Claves(cs)[i] == Clave(cs[i].nombre);
    exists i | 0 <= i < |cs| :: Clave(cs[i].nombre) == Clave(nombre)
  }

  /** `dato`, stripped, is not "N/A" and equals some stripped value of the
      column (the NUMERO and TELEFONO CONTACTO checks). */
  predicate DatoUsado(columna: seq<string>, dato: string)
    ensures DatoUsado(columna, dato) <==> Strip(dato) != NoAplica && Strip(dato) in Recortados(columna)
  {
    assert forall i :: 0 <= i < |columna| ==> Recortados(columna)[i] == Strip(columna[i]);
    && Strip(dato) != NoAplica
    && exists i | 0 <= i < |columna| :: Strip(columna[i]) == Strip(dato)
  }

  /** The checks registration runs, in order: a name must be given, then the
      name, the number and the phone must not be in use already. `None` means
      the customer is accepted. */
  function Revisar(cs: seq<Cliente>, nombre: string, numero: string, telefono: string): (r: Option<Motivo>)
    ensures r == None <==>
      && nombre != ""
      && !NombreUsado(cs, nombre)
      && !DatoUsado(Numeros(cs), numero)
      && !DatoUsado(Telefonos(cs), telefono)
    ensures r == Some(SinNombre) <==> nombre == ""
    ensures r == Some(NombreRepetido) <==> nombre != "" && NombreUsado(cs, nombre)
    ensures r == Some(NumeroRepetido) <==>
      nombre != "" && !NombreUsado(cs, nombre) && DatoUsado(Numeros(cs), numero)
    ensures r == Some(TelefonoRepetido) <==>
      && nombre != "" && !NombreUsado(cs, nombre) && !DatoUsado(Numeros(cs), numero)
      && DatoUsado(Telefonos(cs), telefono)
  {
    if nombre == "" then Some(SinNombre)
    else if NombreUsado(cs, nombre) then Some(NombreRepetido)
    else if DatoUsado(Numeros(cs), numero) then Some(NumeroRepetido)
    else if DatoUsado(Telefonos(cs), telefono) then Some(TelefonoRepetido)
    else None
  }

  /** No two rows share a name key. */
  ghost predicate ClavesUnicas(cs: seq<Cliente>) {
    forall i, j :: 0 <= i < j < |cs| ==> Clave(cs[i].nombre) != Clave(cs[j].nombre)
  }

  /** No two rows share a stripped value other than "N/A". */
  ghost predicate DatosUnicos(columna: seq<string>) {
    forall i, j :: 0 <= i < j < |columna| && Strip(columna[j]) != NoAplica ==>
      Strip(columna[i]) != Strip(columna[j])
  }

  /** What the registration checks protect: no two rows share a name key,
      a number or a phone (other than "N/A"). */
  ghost predicate SinDuplicados(cs: seq<Cliente>) {
    ClavesUnicas(cs) && DatosUnicos(Numeros(cs)) && DatosUnicos(Telefonos(cs))
  }

  /** Appending a value that `DatoUsado` lets through keeps a column's
      values unique. */
  lemma DatoNuevoConservaUnicos(columna: seq<string>, dato: string)
    requires DatosUnicos(columna)
    requires !DatoUsado(columna, dato)
    ensures DatosUnicos(columna + [dato])
  {
    var col := columna + [dato];
    forall i, j | 0 <= i < j < |col| && Strip(col[j]) != NoAplica
      ensures Strip(col[i]) != Strip(col[j])
    {
      if j == |columna| {
        assert col[i] == columna[i];
      }
    }
  }

  /** A registration that passes the checks keeps names, numbers and phones
      unique in the table. */
  lemma AltaConservaUnicidad(cs: seq<Cliente>, c: Cliente)
    requires SinDuplicados(cs)
    requires Revisar(cs, c.nombre, c.numero, c.telefono) == None
    ensures SinDuplicados(cs + [c])
  {
    assert !NombreUsado(cs, c.nombre);
    assert !DatoUsado(Numeros(cs), c.numero) && !DatoUsado(Telefonos(cs), c.telefono);
    ColumnasTrasAlta(cs, c);
    NombreNuevoConservaClaves(cs, c);
    DatoNuevoConservaUnicos(Numeros(cs), c.numero);
    DatoNuevoConservaUnicos(Telefonos(cs), c.telefono);
  }

  lemma ColumnasTrasAlta(cs: seq<Cliente>, c: Cliente)
    ensures Numeros(cs + [c]) == Numeros(cs) + [c.numero]
    ensures Telefonos(cs + [c]) == Telefonos(cs) + [c.telefono]
  {
  }

  /** Appending a row whose name `NombreUsado` lets through keeps the name
      keys unique. */
  lemma NombreNuevoConservaClaves(cs: seq<Cliente>, c: Cliente)
    requires ClavesUnicas(cs)
    requires !NombreUsado(cs, c.nombre)
    ensures ClavesUnicas(cs + [c])
  {
    var cs' := cs + [c];
    forall i, j | 0 <= i < j < |cs'| ensures Clave(cs'[i].nombre) != Clave(cs'[j].nombre) {
      if j == |cs| {
        assert cs'[i] == cs[i];
      }
    }
  }

  // Sales.

  /** Change handed back: payment minus total, floored at 0. It is never
      negative, and with the total it makes up the payment when the payment
      suffices. */
  function Devuelta(pago: int, total: int): (d: int)
    ensures d >= 0
    ensures pago >= total ==> total + d == pago
    ensures pago < total ==> d == 0
  {
    if pago >= total then pago - total else 0
  }

  /** What every stored sale satisfies: at least one lunch, the total at
      the fixed price, a payment that covers it, and the matching change. */
  ghost predicate VentaCoherente(v: Venta) {
    && v.cantidad >= 1
    && v.total == v.cantidad * Precio
    && v.pagoCon >= v.total
    && v.devuelta == Devuelta(v.pagoCon, v.total)
    && v.producto == Almuerzo
  }

  /** Customer IDs are positive and grow along the table; visit counters are
      never negative. */
  ghost predicate TablaClientes(cs: seq<Cliente>) {
    && (forall i, j :: 0 <= i < j < |cs| ==> cs[i].id < cs[j].id)
    && (forall i :: 0 <= i < |cs| ==> cs[i].id >= 1 && cs[i].dias >= 0)
  }

  /** Order numbers are positive and grow along the table; every sale is
      coherent. */
  ghost predicate TablaVentas(vs: seq<Venta>) {
    && (forall i, j :: 0 <= i < j < |vs| ==> vs[i].pedido < vs[j].pedido)
    && (forall i :: 0 <= i < |vs| ==> vs[i].pedido >= 1 && VentaCoherente(vs[i]))
  }

  /** A customer appended with the next ID and no visits keeps the table
      well formed: its ID exceeds every ID in use. */
  lemma AltaConservaTabla(cs: seq<Cliente>, c: Cliente)
    requires TablaClientes(cs)
    requires c.id == SiguienteId(Ids(cs)) && c.dias >= 0
    ensures TablaClientes(cs + [c])
    ensures forall x :: x in cs ==> x.id < c.id
  {
    forall x | x in cs ensures x.id < c.id {
      var i :| 0 <= i < |cs| && cs[i] == x;
      assert Ids(cs)[i] == x.id && Ids(cs)[i] in Ids(cs);
    }
    if cs != [] {
      var i :| 0 <= i < |cs| && Ids(cs)[i] == c.id - 1;
    }
  }

  /** A well-formed customers table with one row removed is well formed. */
  lemma SinFilaConservaClientes(cs: seq<Cliente>, i: int)
    requires TablaClientes(cs)
    requires 0 <= i < |cs|
    ensures TablaClientes(cs[..i] + cs[i + 1..])
  {
    var r := cs[..i] + cs[i + 1..];
    forall a | 0 <= a < |r| ensures r[a] == cs[if a < i then a else a + 1] {
    }
  }

  /** A coherent sale appended with the next order number keeps the table
      well formed. */
  lemma VentaConservaTabla(vs: seq<Venta>, v: Venta)
    requires TablaVentas(vs)
    requires v.pedido == SiguienteId(Pedidos(vs)) && VentaCoherente(v)
    ensures TablaVentas(vs + [v])
  {
    forall i | 0 <= i < |vs| ensures vs[i].pedido < v.pedido {
      assert Pedidos(vs)[i] == vs[i].pedido && Pedidos(vs)[i] in Pedidos(vs);
    }
    if vs != [] {
      var i :| 0 <= i < |vs| && Pedidos(vs)[i] == v.pedido - 1;
    }
  }

  /** `DIAS QUE VINO += 1` on every row whose name is exactly `nombre`. */
  function SumarVisita(cs: seq<Cliente>, nombre: string): (r: seq<Cliente>)
    ensures |r| == |cs|
    ensures forall i :: 0 <= i < |r| ==>
      r[i].dias == cs[i].dias + (if cs[i].nombre == nombre then 1 else 0)
    ensures forall i :: 0 <= i < |r| ==> r[i].(dias := cs[i].dias) == cs[i]
  {
    seq(|cs|, i requires 0 <= i < |cs| =>
      if cs[i].nombre == nombre then cs[i].(dias := cs[i].dias + 1) else cs[i])
  }

  /** The sales table without the rows of order `p`, in their original order. */
  function SinPedido(vs: seq<Venta>, p: int): (r: seq<Venta>)
    ensures |r| <= |vs|
    ensures forall v :: v in r <==> v in vs && v.pedido != p
  {
    if vs == [] then []
    else (if vs[0].pedido == p then [] else [vs[0]]) + SinPedido(vs[1..], p)
  }

  /** Deleting an order keeps the sales table well formed. */
  lemma SinPedidoConservaTabla(vs: seq<Venta>, p: int)
    requires TablaVentas(vs)
    ensures TablaVentas(SinPedido(vs, p))
  {
    if p in Pedidos(vs) {
      var i :| 0 <= i < |vs| && Pedidos(vs)[i] == p;
      SinPedidoQuitaFila(vs, i);
      SinFilaConservaTabla(vs, i);
    } else {
      SinPedidoAusente(vs, p);
    }
  }

  /** A well-formed table with one row removed is well formed. */
  lemma SinFilaConservaTabla(vs: seq<Venta>, i: int)
    requires TablaVentas(vs)
    requires 0 <= i < |vs|
    ensures TablaVentas(vs[..i] + vs[i + 1..])
  {
    var r := vs[..i] + vs[i + 1..];
    forall a | 0 <= a < |r| ensures r[a] == vs[if a < i then a else a + 1] {
    }
  }

  /** Order numbers are unique, so deleting an order that exists removes
      exactly one row. */
  lemma SinPedidoQuitaUna(vs: seq<Venta>, p: int)
    requires TablaVentas(vs)
    requires p in Pedidos(vs)
    ensures |SinPedido(vs, p)| == |vs| - 1
  {
    var i :| 0 <= i < |vs| && Pedidos(vs)[i] == p;
    SinPedidoQuitaFila(vs, i);
  }

  /** Deleting an order no row carries changes nothing. */
  lemma SinPedidoAusente(vs: seq<Venta>, p: int)
    requires p !in Pedidos(vs)
    ensures SinPedido(vs, p) == vs
  {
    forall v | v in vs ensures v.pedido != p {
      var i :| 0 <= i < |vs| && vs[i] == v;
      assert Pedidos(vs)[i] == v.pedido;
    }
    SinPedidoConservaTodas(vs, p);
  }

  /** With no row of order `p`, deleting it changes nothing. */
  lemma {:induction false} SinPedidoConservaTodas(vs: seq<Venta>, p: int)
    requires forall v :: v in vs ==> v.pedido != p
    ensures SinPedido(vs, p) == vs
  {
    if vs != [] {
      SinPedidoConservaTodas(vs[1..], p);
      assert vs == [vs[0]] + vs[1..];
    }
  }

  /** Deleting an order from two tables put together is deleting it from
      each. */
  lemma {:induction false} SinPedidoConcat(a: seq<Venta>, b: seq<Venta>, p: int)
    ensures SinPedido(a + b, p) == SinPedido(a, p) + SinPedido(b, p)
  {
    if a == [] {
      assert a + b == b;
    } else {
      assert (a + b)[1..] == a[1..] + b;
      SinPedidoConcat(a[1..], b, p);
    }
  }

  /** In a well-formed table, deleting the order of row `i` removes that row
      and no other, and keeps the rest in order. */
  lemma {:induction false} SinPedidoQuitaFila(vs: seq<Venta>, i: int)
    requires TablaVentas(vs)
    requires 0 <= i < |vs|
    ensures SinPedido(vs, vs[i].pedido) == vs[..i] + vs[i + 1..]
  {
    OtrasFilasOtroPedido(vs, i);
    assert vs == vs[..i] + [vs[i]] + vs[i + 1..];
    SinPedidoEnMedio(vs[..i], vs[i], vs[i + 1..]);
  }

  /** A row whose order number no other row carries is the only one its
      deletion removes. */
  lemma {:induction false} SinPedidoEnMedio(antes: seq<Venta>, x: Venta, despues: seq<Venta>)
    requires forall v :: v in antes ==> v.pedido != x.pedido
    requires forall v :: v in despues ==> v.pedido != x.pedido
    ensures SinPedido(antes + [x] + despues, x.pedido) == antes + despues
  {
    var p := x.pedido;
    calc {
      SinPedido(antes + [x] + despues, p);
      { assert antes + [x] + despues == antes + ([x] + despues); }
      SinPedido(antes + ([x] + despues), p);
      { SinPedidoConcat(antes, [x] + despues, p); }
      SinPedido(antes, p) + SinPedido([x] + despues, p);
      { SinPedidoCabeza(x, despues); SinPedidoConservaTodas(antes, p); }
      antes + despues;
    }
  }

  /** Deleting the order of a table's first row, which no later row
      carries, leaves the later rows. */
  lemma SinPedidoCabeza(x: Venta, despues: seq<Venta>)
    requires forall v :: v in despues ==> v.pedido != x.pedido
    ensures SinPedido([x] + despues, x.pedido) == despues
  {
    assert ([x] + despues)[1..] == despues;
    SinPedidoConservaTodas(despues, x.pedido);
  }


  /** In a well-formed table no row other than row `i` carries its order
      number. */
  lemma OtrasFilasOtroPedido(vs: seq<Venta>, i: int)
    requires TablaVentas(vs)
    requires 0 <= i < |vs|
    ensures forall v :: v in vs[..i] ==> v.pedido != vs[i].pedido
    ensures forall v :: v in vs[i + 1..] ==> v.pedido != vs[i].pedido
  {
    forall v | v in vs[..i] ensures v.pedido != vs[i].pedido {
      var k :| 0 <= k < i && vs[..i][k] == v;
    }
    forall v | v in vs[i + 1..] ensures v.pedido != vs[i].pedido {
      var k :| 0 <= k < |vs[i + 1..]| && vs[i + 1..][k] == v;
      assert vs[i + 1 + k] == v;
    }
  }

  /** The sale dates of one customer, in table order (`df_ventas[df_ventas
      ["Cliente"] == cliente]["Fecha"]`). */
  function FechasDe(vs: seq<Venta>, nombre: string): (r: seq<int>)
    ensures |r| <= |vs|
    ensures forall d :: d in r ==> exists v :: v in vs && v.cliente == nombre && v.fecha == d
    ensures forall v :: v in vs && v.cliente == nombre ==> v.fecha in r
  {
    if vs == [] then []
    else (if vs[0].cliente == nombre then [vs[0].fecha] else []) + FechasDe(vs[1..], nombre)
  }

  /** Recording a sale adds its date to its customer's dates, and to no one
      else's. */
  lemma {:induction false} FechasTrasVenta(vs: seq<Venta>, v: Venta, nombre: string)
    ensures FechasDe(vs + [v], nombre) ==
      FechasDe(vs, nombre) + (if v.cliente == nombre then [v.fecha] else [])
  {
    if vs == [] {
      assert vs + [v] == [v];
    } else {
      assert (vs + [v])[1..] == vs[1..] + [v];
      FechasTrasVenta(vs[1..], v, nombre);
    }
  }

  /** DIAS QUE VINO read as a sale count: every customer's counter equals
      the number of stored sales that carry the customer's name. */
  ghost predicate VisitasCuadran(cs: seq<Cliente>, vs: seq<Venta>) {
    forall i :: 0 <= i < |cs| ==> cs[i].dias == |FechasDe(vs, cs[i].nombre)|
  }

  /** Recording a sale (append the row, add one visit to the rows with its
      customer's name) keeps the counters equal to the sale counts. */
  lemma VentaConservaVisitas(cs: seq<Cliente>, vs: seq<Venta>, v: Venta)
    requires VisitasCuadran(cs, vs)
    ensures VisitasCuadran(SumarVisita(cs, v.cliente), vs + [v])
  {
    forall i | 0 <= i < |cs| {
      FechasTrasVenta(vs, v, cs[i].nombre);
    }
  }

  /** Deleting a sale leaves DIAS QUE VINO as it was, so the counters can
      drift away from the sale counts. */
  lemma EliminarVentaDescuadra()
    ensures exists cs, vs, p :: VisitasCuadran(cs, vs) && !VisitasCuadran(cs, SinPedido(vs, p))
  {
    var cs := [Cliente(1, "Ana", "CC", NoAplica, NoAplica, NoAplica, NoAplica, 1)];
    var vs := [Venta(1, 0, "Ana", "Jairo", Almuerzo, 1, Precio, Precio, 0)];
    assert FechasDe(vs, "Ana") == [0];
    assert SinPedido(vs, 1) == [];
    assert VisitasCuadran(cs, vs);
    assert FechasDe(SinPedido(vs, 1), "Ana") == [];
    assert cs[0].dias != |FechasDe(SinPedido(vs, 1), cs[0].nombre)|;
    assert VisitasCuadran(cs, vs) && !VisitasCuadran(cs, SinPedido(vs, 1));
  }

  /** No sale has a negative total. */
  predicate TotalesNoNegativos(vs: seq<Venta>) {
    forall i :: 0 <= i < |vs| ==> vs[i].total >= 0
  }

  /** The summary's accumulated total, `df_ventas["Total"].sum()`. */
  function TotalVentas(vs: seq<Venta>): (t: int)
    ensures vs == [] ==> t == 0
    ensures TotalesNoNegativos(vs) ==> t >= 0
  {
    if vs == [] then 0 else vs[0].total + TotalVentas(vs[1..])
  }

  /** Recording a sale raises the accumulated total by the sale's total. */
  lemma {:induction false} TotalTrasVenta(vs: seq<Venta>, v: Venta)
    ensures TotalVentas(vs + [v]) == TotalVentas(vs) + v.total
  {
    if vs == [] {
      assert vs + [v] == [v];
    } else {
      assert (vs + [v])[1..] == vs[1..] + [v];
      TotalTrasVenta(vs[1..], v);
    }
  }

  /** With non-negative totals, deleting an order never raises the
      accumulated total. */
  lemma {:induction false} TotalTrasEliminar(vs: seq<Venta>, p: int)
    requires TotalesNoNegativos(vs)
    ensures TotalVentas(SinPedido(vs, p)) <= TotalVentas(vs)
  {
    if vs != [] {
      TotalTrasEliminar(vs[1..], p);
      var resto := SinPedido(vs[1..], p);
      if vs[0].pedido != p {
        assert ([vs[0]] + resto)[1..] == resto;
      } else {
        assert [] + resto == resto;
      }
    }
  }

  /** The total of two tables put together is the sum of their totals. */
  lemma {:induction false} TotalConcat(a: seq<Venta>, b: seq<Venta>)
    ensures TotalVentas(a + b) == TotalVentas(a) + TotalVentas(b)
  {
    if a == [] {
      assert a + b == b;
    } else {
      assert (a + b)[1..] == a[1..] + b;
      TotalConcat(a[1..], b);
    }
  }

  /** A row between two tables adds exactly its own total. */
  lemma TotalEnMedio(antes: seq<Venta>, x: Venta, despues: seq<Venta>)
    ensures TotalVentas(antes + [x] + despues) == TotalVentas(antes + despues) + x.total
  {
    calc {
      TotalVentas(antes + [x] + despues);
      { assert antes + [x] + despues == antes + ([x] + despues); }
      TotalVentas(antes + ([x] + despues));
      { TotalConcat(antes, [x] + despues); }
      TotalVentas(antes) + TotalVentas([x] + despues);
      { TotalConcat([x], despues); }
      TotalVentas(antes) + TotalVentas([x]) + TotalVentas(despues);
      { TotalConcat(antes, despues); }
      TotalVentas(antes + despues) + x.total;
    }
  }

  /** A table is the rows before `i`, row `i`, and the rows after it. */
  lemma PartirEnFila(vs: seq<Venta>, i: int)
    requires 0 <= i < |vs|
    ensures vs == vs[..i] + [vs[i]] + vs[i + 1..]
  {
  }

  /** Removing row `i` lowers the total by exactly that row's total. */
  lemma TotalSinFila(vs: seq<Venta>, i: int)
    requires 0 <= i < |vs|
    ensures TotalVentas(vs[..i] + vs[i + 1..]) == TotalVentas(vs) - vs[i].total
  {
    var antes, despues := vs[..i], vs[i + 1..];
    calc {
      TotalVentas(vs);
      { PartirEnFila(vs, i); }
      TotalVentas(antes + [vs[i]] + despues);
      { TotalEnMedio(antes, vs[i], despues); }
      TotalVentas(antes + despues) + vs[i].total;
    }
  }

  /** In a well-formed table, deleting the order of row `i` lowers the
      accumulated total by exactly that row's total. */
  lemma TotalTrasEliminarFila(vs: seq<Venta>, i: int)
    requires TablaVentas(vs)
    requires 0 <= i < |vs|
    ensures TotalVentas(SinPedido(vs, vs[i].pedido)) == TotalVentas(vs) - vs[i].total
  {
    SinPedidoQuitaFila(vs, i);
    TotalSinFila(vs, i);
  }
}
