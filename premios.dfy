/** The "Premios" report: every distinct customer name paired with the streak
    of its sale dates, sorted by streak from longest to shortest. Python's
    `sorted(..., reverse=True)` is stable, so equal streaks keep table order. */
module Premios {
  import opened Registros
  import opened Asistencia

  /** One row of the report: a customer name and its streak. */
  type Entrada = (string, nat)

  /** `x` occurs in `p + [y]` where it first occurs in `p`. */
  lemma {:induction false} IndiceTrasAnadir(p: seq<string>, y: string, x: string)
    requires x in p
    ensures Indice(p + [y], x) == Indice(p, x)
  {
    if p[0] != x {
      assert (p + [y])[1..] == p[1..] + [y];
      IndiceTrasAnadir(p[1..], y, x);
    }
  }

  /** A value new to `p` first occurs in `p + [y]` at the end. */
  lemma {:induction false} IndiceDelNuevo(p: seq<string>, y: string)
    requires y !in p
    ensures Indice(p + [y], y) == |p|
  {
    if p != [] {
      assert (p + [y])[1..] == p[1..] + [y];
      IndiceDelNuevo(p[1..], y);
    }
  }

  /** pandas `unique()` on the name column: each name once. */
  function Unicos(s: seq<string>): (r: seq<string>)
    ensures forall x :: x in r <==> x in s
    ensures forall i, j :: 0 <= i < j < |r| ==> r[i] != r[j]
  {
    if s == [] then []
    else
      var u := Unicos(s[..|s| - 1]);
      var y := s[|s| - 1];
      assert s == s[..|s| - 1] + [y];
      if y in u then u else u + [y]
  }

  /** `unique()` lists the names in the order of their first appearance in
      the table. */
  lemma {:induction false} UnicosEnOrden(s: seq<string>)
    ensures forall i, j :: 0 <= i < j < |Unicos(s)| ==> Indice(s, Unicos(s)[i]) < Indice(s, Unicos(s)[j])
  {
    if s != [] {
      var p := s[..|s| - 1];
      var y := s[|s| - 1];
      var u := Unicos(p);
      UnicosEnOrden(p);
      assert s == p + [y];
      forall x | x in p ensures Indice(s, x) == Indice(p, x) {
        IndiceTrasAnadir(p, y, x);
      }
      if y !in u {
        IndiceDelNuevo(p, y);
        assert Unicos(s) == u + [y];
      }
    }
  }

  /** Streaks never grow along the report. */
  predicate OrdenDesc(r: seq<Entrada>) {
    forall i, j :: 0 <= i < j < |r| ==> r[i].1 >= r[j].1
  }

  /** The rows with streak `k`, in their order. */
  function ConRacha(s: seq<Entrada>, k: nat): seq<Entrada> {
    if s == [] then []
    else (if s[0].1 == k then [s[0]] else []) + ConRacha(s[1..], k)
  }

  /** Puts `e` into a report sorted by streak, before the first row whose
      streak is not larger than its own. */
  function InsertarPorRacha(e: Entrada, t: seq<Entrada>): (r: seq<Entrada>)
    requires OrdenDesc(t)
    ensures OrdenDesc(r)
    ensures |r| == |t| + 1 && r[0] == (if t == [] || t[0].1 <= e.1 then e else t[0])
  {
    if t == [] || t[0].1 <= e.1 then
      [e] + t
    else
      [t[0]] + InsertarPorRacha(e, t[1..])
  }

  /** Inserting adds `e` and loses no row. */
  lemma {:induction false} InsertarPorRachaPermuta(e: Entrada, t: seq<Entrada>)
    requires OrdenDesc(t)
    ensures multiset(InsertarPorRacha(e, t)) == multiset(t) + multiset{e}
  {
    if t != [] && t[0].1 > e.1 {
      InsertarPorRachaPermuta(e, t[1..]);
      assert t == [t[0]] + t[1..];
    }
  }

  /** Inserting `e` places it before every row with its streak that was
      already there, and moves no such row. */
  lemma {:induction false} ConRachaInsertar(e: Entrada, t: seq<Entrada>, k: nat)
    requires OrdenDesc(t)
    ensures ConRacha(InsertarPorRacha(e, t), k) == (if e.1 == k then [e] else []) + ConRacha(t, k)
  {
    var r := InsertarPorRacha(e, t);
    if t == [] || t[0].1 <= e.1 {
      assert r[1..] == t;
    } else {
      var resto := InsertarPorRacha(e, t[1..]);
      assert r[1..] == resto;
      ConRachaInsertar(e, t[1..], k);
      assert ConRacha(r, k) == (if t[0].1 == k then [t[0]] else []) + ConRacha(resto, k);
      assert ConRacha(t, k) == (if t[0].1 == k then [t[0]] else []) + ConRacha(t[1..], k);
      if e.1 == k {
        assert t[0].1 != k;
      }
    }
  }

  /** `sorted(resultados, key=lambda x: x[1], reverse=True)`: longest streak
      first, a permutation of the rows, and rows with equal streaks in their
      original order. */
  function OrdenarPorRacha(s: seq<Entrada>): (r: seq<Entrada>)
    ensures OrdenDesc(r)
    ensures multiset(r) == multiset(s)
    ensures forall k :: ConRacha(r, k) == ConRacha(s, k)
  {
    if s == [] then []
    else
      var t := OrdenarPorRacha(s[1..]);
      assert s == [s[0]] + s[1..];
      InsertarPorRachaPermuta(s[0], t);
      assert forall k :: ConRacha(InsertarPorRacha(s[0], t), k) == ConRacha(s, k) by {
        forall k: nat ensures ConRacha(InsertarPorRacha(s[0], t), k) == ConRacha(s, k) {
          ConRachaInsertar(s[0], t, k);
        }
      }
      InsertarPorRacha(s[0], t)
  }

  /** One row per name, in the order of the names: the name and the streak
      of its sale dates. */
  function Resultados(nombres: seq<string>, vs: seq<Venta>): (r: seq<Entrada>)
    ensures |r| == |nombres|
    ensures forall i :: 0 <= i < |r| ==> r[i].0 == nombres[i]
    ensures forall e :: e in r ==> e.1 == Racha(FechasDe(vs, e.0))
  {
    seq(|nombres|, i requires 0 <= i < |nombres| => (nombres[i], Racha(FechasDe(vs, nombres[i]))))
  }

  /** The report: for each distinct customer name, in table order, the
      streak of the dates of the sales carrying that name; then the rows
      sorted by streak, longest first, ties in table order. */
  method RankingRachas(cs: seq<Cliente>, vs: seq<Venta>) returns (ranking: seq<Entrada>)
    ensures ranking == OrdenarPorRacha(Resultados(Unicos(Nombres(cs)), vs))
    ensures OrdenDesc(ranking)
    ensures |ranking| == |Unicos(Nombres(cs))|
    ensures forall e :: e in ranking ==> e.0 in Nombres(cs) && e.1 == Racha(FechasDe(vs, e.0))
    ensures forall n :: n in Nombres(cs) ==> exists r :: (n, r) in ranking
  {
    var unicos := Unicos(Nombres(cs));
    var resultados: seq<Entrada> := [];
    for i := 0 to |unicos|
      invariant resultados == Resultados(unicos[..i], vs)
    {
      var cliente := unicos[i];
      var fechasCliente := FechasDe(vs, cliente);
      var racha := CalcularRacha(fechasCliente);
      assert unicos[..i + 1] == unicos[..i] + [cliente];
      ResultadosTrasAnadir(unicos[..i], cliente, vs);
      resultados := resultados + [(cliente, racha)];
    }
    assert unicos[..|unicos|] == unicos;
    ranking := OrdenarPorRacha(resultados);
    ReporteCompleto(unicos, vs);
  }

  /** One more name adds its row at the end. */
  lemma ResultadosTrasAnadir(nombres: seq<string>, n: string, vs: seq<Venta>)
    ensures Resultados(nombres + [n], vs) == Resultados(nombres, vs) + [(n, Racha(FechasDe(vs, n)))]
  {
  }

  /** The sorted report has one row per name, each row pairs a name with
      its own streak, and every name has a row. */
  lemma ReporteCompleto(nombres: seq<string>, vs: seq<Venta>)
    ensures |OrdenarPorRacha(Resultados(nombres, vs))| == |nombres|
    ensures forall e :: e in OrdenarPorRacha(Resultados(nombres, vs)) ==>
      e.0 in nombres && e.1 == Racha(FechasDe(vs, e.0))
    ensures forall n :: n in nombres ==> exists r :: (n, r) in OrdenarPorRacha(Resultados(nombres, vs))
  {
    var resultados := Resultados(nombres, vs);
    var ranking := OrdenarPorRacha(resultados);
    assert |ranking| == |multiset(ranking)| == |multiset(resultados)| == |resultados|;
    forall e | e in ranking
      ensures e.0 in nombres && e.1 == Racha(FechasDe(vs, e.0))
    {
      assert e in multiset(resultados);
    }
    forall n | n in nombres ensures exists r :: (n, r) in ranking {
      var k := Indice(nombres, n);
      assert resultados[k] in multiset(ranking);
    }
  }
}
