/** The shop's state and the operations the form pages run on it: register,
    update and delete a customer; register and delete a sale. The two tables
    are sequences of records that the operations reassign. Sales reference
    customers by name, so renaming or deleting a customer leaves the sales
    as they are, and deleting a sale leaves DIAS QUE VINO as it is. */
module Tienda {
  import opened Registros
  import opened Asistencia

  /** Outcome of the customer registration form. */
  datatype Alta = Registrado(id: int) | Rechazado(motivo: Motivo)

  /** Outcome of the sale form's "Registrar venta" button. */
  datatype Cobro = Registrada(pedido: int) | PagoInsuficiente

  class Surtitienda {
    var clientes: seq<Cliente>
    var ventas: seq<Venta>

    ghost predicate Valid()
      reads this
    {
      TablaClientes(clientes) && TablaVentas(ventas)
    }

    /** Both tables start empty, as the loader creates them when no file
        exists yet. */
    constructor ()
      ensures Valid()
      ensures clientes == [] && ventas == []
    {
      clientes := [];
      ventas := [];
    }

    /** "Guardar cliente": empty optional fields become "N/A"; the checks of
        `Revisar` run in order; an accepted customer is appended with the
        next ID and DIAS QUE VINO = 0, a refused one changes nothing. */
    method RegistrarCliente(nombre: string, tipo: string, numero: string, telefono: string,
                            barrio: string, comuna: string) returns (r: Alta)
      requires Valid()
      modifies this`clientes
      ensures Valid()
      ensures var motivo := Revisar(old(clientes), nombre, OrNA(numero), OrNA(telefono));
        && (motivo.Some? ==> r == Rechazado(motivo.value) && clientes == old(clientes))
        && (motivo.None? ==>
              && r == Registrado(SiguienteId(Ids(old(clientes))))
              && clientes == old(clientes) +
                   [Cliente(r.id, nombre, tipo, OrNA(numero), OrNA(telefono), OrNA(barrio), OrNA(comuna), 0)])
      ensures r.Registrado? ==> forall c :: c in old(clientes) ==> c.id < r.id
      ensures SinDuplicados(old(clientes)) ==> SinDuplicados(clientes)
    {
      var num, tel := OrNA(numero), OrNA(telefono);
      var motivo := Revisar(clientes, nombre, num, tel);
      if motivo.Some? {
        return Rechazado(motivo.value);
      }
      var nuevoId := SiguienteId(Ids(clientes));
      var nuevo := Cliente(nuevoId, nombre, tipo, num, tel, OrNA(barrio), OrNA(comuna), 0);
      AltaConservaTabla(clientes, nuevo);
      if SinDuplicados(clientes) {
        AltaConservaUnicidad(clientes, nuevo);
      }
      clientes := clientes + [nuevo];
      r := Registrado(nuevoId);
    }

    /** "Actualizar": the first row whose name is `seleccion` gets the form's
        values, keeping its ID and DIAS QUE VINO. No duplicate check runs. */
    method ActualizarCliente(seleccion: string, nombre: string, tipo: string, numero: string,
                             telefono: string, barrio: string, comuna: string)
      requires Valid()
      requires seleccion in Nombres(clientes)
      modifies this`clientes
      ensures Valid()
      ensures var i := Indice(Nombres(old(clientes)), seleccion);
        var c := old(clientes)[i];
        clientes == old(clientes)[i := Cliente(c.id, nombre, tipo, numero, telefono, barrio, comuna, c.dias)]
    {
      var i := Indice(Nombres(clientes), seleccion);
      var c := clientes[i];
      clientes := clientes[i := Cliente(c.id, nombre, tipo, numero, telefono, barrio, comuna, c.dias)];
    }

    /** "Eliminar cliente": drops the first row whose name is `seleccion`;
        the other rows keep their order and the sales stay as they are. */
    method EliminarCliente(seleccion: string)
      requires Valid()
      requires seleccion in Nombres(clientes)
      modifies this`clientes
      ensures Valid()
      ensures var i := Indice(Nombres(old(clientes)), seleccion);
        clientes == old(clientes)[..i] + old(clientes)[i + 1..]
      ensures ventas == old(ventas)
    {
      var i := Indice(Nombres(clientes), seleccion);
      SinFilaConservaClientes(clientes, i);
      clientes := clientes[..i] + clientes[i + 1..];
    }

    /** "Registrar venta" for `cantidad` lunches paid with `pago` on day
        `hoy`. A payment below the total is refused and changes nothing.
        Otherwise one row is appended with the next order number, the total
        at 2500 per lunch and the change, and every customer row whose name
        is exactly `cliente` gets one more visit. */
    method RegistrarVenta(cliente: string, vendedor: string, cantidad: int, pago: int, hoy: int)
      returns (r: Cobro)
      requires Valid()
      requires cantidad >= 1 && pago >= 0
      modifies this
      ensures Valid()
      ensures var total := cantidad * Precio;
        && (pago < total ==> r == PagoInsuficiente && clientes == old(clientes) && ventas == old(ventas))
        && (pago >= total ==>
              && r == Registrada(SiguienteId(Pedidos(old(ventas))))
              && ventas == old(ventas) +
                   [Venta(r.pedido, hoy, cliente, vendedor, Almuerzo, cantidad, total, pago, pago - total)]
              && clientes == SumarVisita(old(clientes), cliente))
      ensures VisitasCuadran(old(clientes), old(ventas)) ==> VisitasCuadran(clientes, ventas)
    {
      var total := cantidad * Precio;
      var devuelta := Devuelta(pago, total);
      if pago < total {
        return PagoInsuficiente;
      }
      var pedido := SiguienteId(Pedidos(ventas));
      var venta := Venta(pedido, hoy, cliente, vendedor, Almuerzo, cantidad, total, pago, devuelta);
      VentaConservaTabla(ventas, venta);
      if VisitasCuadran(clientes, ventas) {
        VentaConservaVisitas(clientes, ventas, venta);
      }
      ventas := ventas + [venta];
      clientes := SumarVisita(clientes, cliente);
      r := Registrada(pedido);
    }

    /** "Eliminar compra": removes every row of order `pedido`, keeping the
        others in order. The customers, and their DIAS QUE VINO, are not
        touched. */
    method EliminarVenta(pedido: int)
      requires Valid()
      modifies this`ventas
      ensures Valid()
      ensures ventas == SinPedido(old(ventas), pedido)
      ensures pedido in Pedidos(old(ventas)) ==> |ventas| == |old(ventas)| - 1
      ensures forall i :: 0 <= i < |old(ventas)| && old(ventas)[i].pedido == pedido ==>
        ventas == old(ventas)[..i] + old(ventas)[i + 1..]
      ensures pedido !in Pedidos(old(ventas)) ==> ventas == old(ventas)
      ensures clientes == old(clientes)
    {
      SinPedidoConservaTabla(ventas, pedido);
      if pedido in Pedidos(ventas) {
        SinPedidoQuitaUna(ventas, pedido);
      } else {
        SinPedidoAusente(ventas, pedido);
      }
      forall i | 0 <= i < |ventas| && ventas[i].pedido == pedido
        ensures SinPedido(ventas, pedido) == ventas[..i] + ventas[i + 1..]
      {
        SinPedidoQuitaFila(ventas, i);
      }
      ventas := SinPedido(ventas, pedido);
    }
  }

  /** Ana's row in the customers table after `dias` visits. */
  function Ana(dias: int): Cliente {
    Cliente(1, "Ana", "CC", NoAplica, NoAplica, NoAplica, NoAplica, dias)
  }

  /** A sale in Ana's name adds one visit to her row. */
  lemma VisitaDeAna(dias: int)
    ensures SumarVisita([Ana(dias)], "Ana") == [Ana(dias + 1)]
  {
  }

  /** A new shop where the form registers "Ana" with only the name and the
      document type filled in: she gets ID 1, "N/A" in the empty fields and
      no visits. */
  method TiendaConAna() returns (tienda: Surtitienda)
    ensures fresh(tienda) && tienda.Valid()
    ensures tienda.clientes == [Ana(0)]
    ensures tienda.ventas == []
  {
    tienda := new Surtitienda();
    var alta := tienda.RegistrarCliente("Ana", "CC", "", "", "", "");
    assert alta == Registrado(1);
  }

  /** The sale "Ana" makes on day `dia`: ten lunches paid with the exact
      amount. */
  function AlmuerzoDeAna(pedido: int, dia: int): Venta {
    Venta(pedido, dia, "Ana", "Jairo", Almuerzo, 10, 25000, 25000, 0)
  }

  /** Ana's sale dates after three days: one per day, in order. */
  lemma FechasDeAna(d: int)
    ensures FechasDe([AlmuerzoDeAna(1, d), AlmuerzoDeAna(2, d + 1), AlmuerzoDeAna(3, d + 2)], "Ana")
      == [d, d + 1, d + 2]
  {
    var v1, v2, v3 := AlmuerzoDeAna(1, d), AlmuerzoDeAna(2, d + 1), AlmuerzoDeAna(3, d + 2);
    assert FechasDe([v1], "Ana") == [d] by {
      FechasTrasVenta([], v1, "Ana");
      assert [] + [v1] == [v1];
    }
    assert FechasDe([v1, v2], "Ana") == [d, d + 1] by {
      calc {
        FechasDe([v1, v2], "Ana");
        { assert [v1] + [v2] == [v1, v2]; }
        FechasDe([v1] + [v2], "Ana");
        { FechasTrasVenta([v1], v2, "Ana"); }
        FechasDe([v1], "Ana") + [d + 1];
      }
    }
    calc {
      FechasDe([v1, v2, v3], "Ana");
      { assert [v1, v2] + [v3] == [v1, v2, v3]; }
      FechasDe([v1, v2] + [v3], "Ana");
      { FechasTrasVenta([v1, v2], v3, "Ana"); }
      FechasDe([v1, v2], "Ana") + [d + 2];
    }
  }

  /** Ana's sale dates once the middle day's sale is gone. */
  lemma FechasDeAnaSinMedio(d: int)
    ensures FechasDe([AlmuerzoDeAna(1, d), AlmuerzoDeAna(3, d + 2)], "Ana") == [d, d + 2]
  {
    var v1, v3 := AlmuerzoDeAna(1, d), AlmuerzoDeAna(3, d + 2);
    assert FechasDe([v1], "Ana") == [d] by {
      FechasTrasVenta([], v1, "Ana");
      assert [] + [v1] == [v1];
    }
    FechasTrasVenta([v1], v3, "Ana");
    assert [v1] + [v3] == [v1, v3];
  }

  /** Ana's streak in the two states of the scenario below: 3 over three
      consecutive days, 1 once the middle day is gone. */
  lemma RachasDeAna(d: int)
    ensures Racha(FechasDe([AlmuerzoDeAna(1, d), AlmuerzoDeAna(2, d + 1), AlmuerzoDeAna(3, d + 2)], "Ana")) == 3
    ensures Racha(FechasDe([AlmuerzoDeAna(1, d), AlmuerzoDeAna(3, d + 2)], "Ana")) == 1
  {
    FechasDeAna(d);
    FechasDeAnaSinMedio(d);
    assert Racha([d, d + 1, d + 2]) == 3 by {
      RachaTresDias(d);
    }
    assert Racha([d, d + 2]) == 1 by {
      RachaConHueco(d);
    }
  }

  /** The order numbers after Ana's first and second sales, and the next
      number each leaves. */
  lemma PedidosDeAna(d: int)
    ensures SiguienteId(Pedidos([AlmuerzoDeAna(1, d)])) == 2
    ensures SiguienteId(Pedidos([AlmuerzoDeAna(1, d), AlmuerzoDeAna(2, d + 1)])) == 3
  {
    assert Pedidos([AlmuerzoDeAna(1, d)]) == [1];
    assert Pedidos([AlmuerzoDeAna(1, d), AlmuerzoDeAna(2, d + 1)]) == [1, 2];
    assert Maximo([1, 2]) == 2;
  }

  /** "Ana" buys lunch on two consecutive days: the orders are numbered 1
      and 2 and her counter reaches 2. */
  method DosDiasSeguidos(d: int) returns (tienda: Surtitienda)
    ensures fresh(tienda) && tienda.Valid()
    ensures tienda.clientes == [Ana(2)]
    ensures tienda.ventas == [AlmuerzoDeAna(1, d), AlmuerzoDeAna(2, d + 1)]
  {
    tienda := TiendaConAna();
    PedidosDeAna(d);
    VisitaDeAna(0);
    var c1 := tienda.RegistrarVenta("Ana", "Jairo", 10, 25000, d);
    assert c1 == Registrada(1);
    assert tienda.ventas == [AlmuerzoDeAna(1, d)] && tienda.clientes == [Ana(1)];
    VisitaDeAna(1);
    var c2 := tienda.RegistrarVenta("Ana", "Jairo", 10, 25000, d + 1);
    assert c2 == Registrada(2);
  }

  /** A third day in a row: order number 3, and her counter reaches 3. */
  method TresDiasSeguidos(d: int) returns (tienda: Surtitienda)
    ensures fresh(tienda) && tienda.Valid()
    ensures tienda.clientes == [Ana(3)]
    ensures tienda.ventas == [AlmuerzoDeAna(1, d), AlmuerzoDeAna(2, d + 1), AlmuerzoDeAna(3, d + 2)]
  {
    tienda := DosDiasSeguidos(d);
    PedidosDeAna(d);
    VisitaDeAna(2);
    var c3 := tienda.RegistrarVenta("Ana", "Jairo", 10, 25000, d + 2);
    assert c3 == Registrada(3);
  }

  /** Three consecutive days give a streak of 3; cancelling the middle sale
      leaves the counter at 3, although only two sales remain and the streak
      drops to 1. */
  method CancelarDiaDelMedio(d: int)
  {
    var tienda := TresDiasSeguidos(d);
    ghost var antes := tienda.ventas;
    assert antes[1].pedido == 2;
    tienda.EliminarVenta(2);
    assert tienda.ventas == antes[..1] + antes[2..] == [AlmuerzoDeAna(1, d), AlmuerzoDeAna(3, d + 2)];
    assert tienda.clientes == [Ana(3)];
    RachasDeAna(d);
    assert Racha(FechasDe(tienda.ventas, "Ana")) == 1;
  }
}
