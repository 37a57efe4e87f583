/** The attendance streak (`calcular_racha`): the sale dates of one customer,
    as day numbers, are sorted, and the longest run of neighbours exactly one
    day apart is measured. A repeated day breaks the run like any other gap. */
module Asistencia {

  predicate Ordenada(s: seq<int>) {
    forall i, j :: 0 <= i < j < |s| ==> s[i] <= s[j]
  }

  /** Puts `x` into a sorted sequence, before the first element not below it. */
  function Insertar(x: int, s: seq<int>): (r: seq<int>)
    requires Ordenada(s)
    ensures Ordenada(r)
    ensures |r| == |s| + 1 && r[0] == (if s == [] || x <= s[0] then x else s[0])
  {
    if s == [] || x <= s[0] then [x] + s
    else [s[0]] + Insertar(x, s[1..])
  }

  /** Inserting adds `x` and loses nothing. */
  lemma {:induction false} InsertarPermuta(x: int, s: seq<int>)
    requires Ordenada(s)
    ensures multiset(Insertar(x, s)) == multiset(s) + multiset{x}
  {
    if s != [] && x > s[0] {
      InsertarPermuta(x, s[1..]);
      assert s == [s[0]] + s[1..];
    }
  }

  /** Python's `sorted` on day numbers, ascending. */
  function Ordenar(s: seq<int>): (r: seq<int>)
    ensures Ordenada(r)
    ensures |r| == |s|
  {
    if s == [] then [] else Insertar(s[0], Ordenar(s[1..]))
  }

  /** Sorting is a permutation of the dates. */
  lemma {:induction false} OrdenarPermuta(s: seq<int>)
    ensures multiset(Ordenar(s)) == multiset(s)
  {
    if s != [] {
      var t := Ordenar(s[1..]);
      calc {
        multiset(Ordenar(s));
        multiset(Insertar(s[0], t));
        { InsertarPermuta(s[0], t); }
        multiset(t) + multiset{s[0]};
        { OrdenarPermuta(s[1..]); }
        multiset(s[1..]) + multiset{s[0]};
        { assert s == [s[0]] + s[1..]; }
        multiset(s);
      }
    }
  }

  /** A sorted sequence is determined by its multiset of elements. */
  lemma {:induction false} OrdenadaUnica(a: seq<int>, b: seq<int>)
    requires Ordenada(a) && Ordenada(b)
    requires multiset(a) == multiset(b)
    ensures a == b
  {
    assert |a| == |multiset(a)| == |multiset(b)| == |b|;
    if a != [] {
      OrdenadaEmpiezaPorMinimo(a, b[0]);
      OrdenadaEmpiezaPorMinimo(b, a[0]);
      assert a == [a[0]] + a[1..];
      assert b == [b[0]] + b[1..];
      assert a[0] == b[0];
      assert multiset(a) == multiset{a[0]} + multiset(a[1..]);
      assert multiset(b) == multiset{b[0]} + multiset(b[1..]);
      assert multiset(a[1..]) == multiset(a) - multiset{a[0]};
      assert multiset(b[1..]) == multiset(b) - multiset{b[0]};
      OrdenadaUnica(a[1..], b[1..]);
    }
  }

  /** A sorted sequence starts with its least element. */
  lemma OrdenadaEmpiezaPorMinimo(a: seq<int>, y: int)
    requires Ordenada(a)
    requires y in multiset(a)
    ensures a[0] <= y
  {
    var i :| 0 <= i < |a| && a[i] == y;
  }

  /** `s[i..j]` is a run: each element is one day after the one before. */
  ghost predicate Tramo(s: seq<int>, i: int, j: int) {
    && 0 <= i < j <= |s|
    && forall k :: i < k < j ==> s[k] == s[k - 1] + 1
  }

  /** Length of the run that ends at position `k`: it grows when `s[k]` is
      one day after `s[k - 1]` and starts again at 1 otherwise. */
  function RachaHasta(s: seq<int>, k: nat): (n: nat)
    requires k < |s|
    ensures 1 <= n <= k + 1
  {
    if k == 0 || s[k] - s[k - 1] != 1 then 1 else RachaHasta(s, k - 1) + 1
  }

  /** The longest of the runs that end before position `n`. */
  function MejorRacha(s: seq<int>, n: nat): (m: nat)
    requires n <= |s|
    ensures n == 0 ==> m == 0
    ensures n > 0 ==> 1 <= m <= n
  {
    if n == 0 then 0
    else
      var m := MejorRacha(s, n - 1);
      var a := RachaHasta(s, n - 1);
      if a > m then a else m
  }

  /** The streak of a list of sale dates: the longest run in the sorted
      dates. It is 0 exactly for no dates, and otherwise lies between 1 and
      the number of dates. */
  function Racha(fechas: seq<int>): (r: nat)
    ensures r == 0 <==> fechas == []
    ensures fechas != [] ==> 1 <= r <= |fechas|
  {
    var s := Ordenar(fechas);
    MejorRacha(s, |s|)
  }

  /** `calcular_racha`: sorts the dates and scans neighbouring
      pairs, growing the current run on a gap of exactly one day and
      resetting it to 1 on any other gap. */
  method CalcularRacha(fechas: seq<int>) returns (maxRacha: nat)
    ensures maxRacha == Racha(fechas)
  {
    if fechas == [] {
      return 0;
    }
    var ordenadas := Ordenar(fechas);
    maxRacha := 1;
    var rachaActual := 1;
    for i := 1 to |ordenadas|
      invariant rachaActual == RachaHasta(ordenadas, i - 1)
      invariant maxRacha == MejorRacha(ordenadas, i)
    {
      if ordenadas[i] - ordenadas[i - 1] == 1 {
        rachaActual := rachaActual + 1;
        if rachaActual > maxRacha {
          maxRacha := rachaActual;
        }
      } else {
        rachaActual := 1;
      }
    }
  }

  /** The run counted by `RachaHasta` is a run, and no run ending at `k`
      is longer. */
  lemma {:induction false} RachaHastaEsMaxima(s: seq<int>, k: nat)
    requires k < |s|
    ensures Tramo(s, k + 1 - RachaHasta(s, k), k + 1)
    ensures forall i, j :: Tramo(s, i, j) && j == k + 1 ==> j - i <= RachaHasta(s, k)
  {
    if k > 0 && s[k] - s[k - 1] == 1 {
      RachaHastaEsMaxima(s, k - 1);
      forall i, j | Tramo(s, i, j) && j == k + 1 ensures j - i <= RachaHasta(s, k) {
        if i < k {
          assert Tramo(s, i, k);
        }
      }
    } else {
      forall i, j | Tramo(s, i, j) && j == k + 1 ensures i == k { }
    }
  }

  /** `MejorRacha(s, n)` is the length of a run within `s[..n]`, and no run
      within `s[..n]` is longer. */
  lemma {:induction false} MejorRachaEsMaxima(s: seq<int>, n: nat)
    requires 0 < n <= |s|
    ensures exists i, j :: Tramo(s, i, j) && j - i == MejorRacha(s, n) && j <= n
    ensures forall i, j :: Tramo(s, i, j) && j <= n ==> j - i <= MejorRacha(s, n)
  {
    RachaHastaEsMaxima(s, n - 1);
    var a := RachaHasta(s, n - 1);
    if n == 1 {
      assert Tramo(s, n - a, n);
      forall i, j | Tramo(s, i, j) && j <= n ensures j - i <= MejorRacha(s, n) { }
    } else {
      MejorRachaEsMaxima(s, n - 1);
      var m := MejorRacha(s, n - 1);
      if a > m {
        assert Tramo(s, n - a, n);
      }
      forall i, j | Tramo(s, i, j) && j <= n ensures j - i <= MejorRacha(s, n) {
        if j < n {
          assert j - i <= m;
        }
      }
    }
  }

  /** What the streak means: with no dates it is 0; otherwise the sorted
      dates contain a run of exactly that length, and none longer. */
  lemma RachaEsLaMasLarga(fechas: seq<int>)
    ensures fechas == [] ==> Racha(fechas) == 0
    ensures fechas != [] ==> exists i, j :: Tramo(Ordenar(fechas), i, j) && j - i == Racha(fechas)
    ensures forall i, j :: Tramo(Ordenar(fechas), i, j) ==> j - i <= Racha(fechas)
  {
    if fechas != [] {
      MejorRachaEsMaxima(Ordenar(fechas), |fechas|);
    }
  }

  /** The days of a run are distinct. */
  lemma {:induction false} TramoDistinto(s: seq<int>, i: int, j: int)
    requires Tramo(s, i, j)
    ensures |set k | i <= k < j :: s[k]| == j - i
  {
    if j == i + 1 {
      assert (set k | i <= k < j :: s[k]) == {s[i]};
    } else {
      TramoDistinto(s, i, j - 1);
      var antes := set k | i <= k < j - 1 :: s[k];
      forall x | x in antes ensures x < s[j - 1] {
        var k :| i <= k < j - 1 && s[k] == x;
        TramoCrece(s, i, j, k);
      }
      assert (set k | i <= k < j :: s[k]) == antes + {s[j - 1]};
    }
  }

  /** Within a run, the day at position `k` is `j - 1 - k` days before the
      last one. */
  lemma {:induction false} TramoCrece(s: seq<int>, i: int, j: int, k: int)
    requires Tramo(s, i, j) && i <= k < j
    ensures s[k] == s[j - 1] - (j - 1 - k)
    decreases j - k
  {
    if k < j - 1 {
      TramoCrece(s, i, j, k + 1);
    }
  }

  /** The streak never exceeds the number of distinct days with a sale. */
  lemma RachaDiasDistintos(fechas: seq<int>)
    ensures Racha(fechas) <= |set d | d in fechas|
  {
    RachaEsLaMasLarga(fechas);
    if fechas != [] {
      var s := Ordenar(fechas);
      var r := Racha(fechas);
      var i, j :| Tramo(s, i, j) && j - i == r;
      TramoDistinto(s, i, j);
      var dias := set k | i <= k < j :: s[k];
      var todos := set d | d in fechas;
      OrdenarPermuta(fechas);
      forall x | x in dias ensures x in todos {
        assert x in multiset(s);
      }
      SubconjuntoMenor(dias, todos);
    }
  }

  lemma SubconjuntoMenor(a: set<int>, b: set<int>)
    requires a <= b
    ensures |a| <= |b|
  {
    assert b == a + (b - a);
    assert a * (b - a) == {};
  }

  /** The streak does not depend on the order of the dates: the dates are
      sorted before they are scanned. */
  lemma RachaSinOrden(a: seq<int>, b: seq<int>)
    requires multiset(a) == multiset(b)
    ensures Racha(a) == Racha(b)
  {
    OrdenarPermuta(a);
    OrdenarPermuta(b);
    OrdenadaUnica(Ordenar(a), Ordenar(b));
  }

  /** Sorting already sorted dates changes nothing, so their streak is
      their longest run as they stand. */
  lemma OrdenarOrdenada(s: seq<int>)
    requires Ordenada(s)
    ensures Ordenar(s) == s
    ensures Racha(s) == MejorRacha(s, |s|)
  {
    OrdenarPermuta(s);
    OrdenadaUnica(Ordenar(s), s);
  }

  /** Days that follow one another, one sale each, make a streak as long
      as the list. */
  lemma RachaConsecutivos(s: seq<int>)
    requires s != []
    requires forall k :: 0 < k < |s| ==> s[k] == s[k - 1] + 1
    ensures Racha(s) == |s|
  {
    assert Tramo(s, 0, |s|);
    forall i, j | 0 <= i < j < |s| ensures s[i] <= s[j] {
      TramoCrece(s, 0, |s|, i);
      TramoCrece(s, 0, |s|, j);
    }
    OrdenarOrdenada(s);
    RachaEsLaMasLarga(s);
  }

  /** Three consecutive days make a streak of 3. */
  lemma RachaTresDias(d: int)
    ensures Racha([d, d + 1, d + 2]) == 3
  {
    RachaConsecutivos([d, d + 1, d + 2]);
  }

  /** The same three days given out of order still make a streak of 3. */
  lemma RachaTresDiasDesordenados(d: int)
    ensures Racha([d + 2, d, d + 1]) == 3
  {
    var s, t := [d, d + 1, d + 2], [d + 2, d, d + 1];
    assert Racha(s) == 3 by {
      RachaTresDias(d);
    }
    assert Racha(t) == Racha(s) by {
      assert multiset(t) == multiset(s) by {
        assert t == [d + 2] + [d, d + 1];
        assert s == [d, d + 1] + [d + 2];
      }
      RachaSinOrden(t, s);
    }
  }

  /** A gap of two days breaks the run. */
  lemma RachaConHueco(d: int)
    ensures Racha([d, d + 2]) == 1
  {
    var s := [d, d + 2];
    assert Racha(s) == MejorRacha(s, 2) by {
      assert Ordenada(s);
      OrdenarOrdenada(s);
    }
    assert MejorRacha(s, 2) == 1 by {
      assert RachaHasta(s, 1) == 1;
    }
  }

  /** A repeated day does not lengthen the run: the repeated entry resets
      it, and the next day only brings it back to 2. */
  lemma RachaDiaRepetido(d: int)
    ensures Racha([d, d, d + 1]) == 2
  {
    var s := [d, d, d + 1];
    assert Racha(s) == MejorRacha(s, 3) by {
      assert Ordenada(s);
      OrdenarOrdenada(s);
    }
    assert MejorRacha(s, 3) == 2 by {
      assert RachaHasta(s, 1) == 1;
      assert MejorRacha(s, 2) == 1;
    }
  }

  /** A repeated day in the middle of consecutive days splits them: the
      stretch d, d+1 ends at the repeat, and d+1, d+2 starts again. */
  lemma RachaDuplicadoEnMedio(d: int)
    ensures Racha([d, d + 1, d + 1, d + 2]) == 2
  {
    var s := [d, d + 1, d + 1, d + 2];
    assert Racha(s) == MejorRacha(s, 4) by {
      assert Ordenada(s);
      OrdenarOrdenada(s);
    }
    assert MejorRacha(s, 4) == 2 by {
      assert RachaHasta(s, 1) == 2;
      assert RachaHasta(s, 2) == 1;
      assert RachaHasta(s, 3) == 2;
      assert MejorRacha(s, 2) == 2;
      assert MejorRacha(s, 3) == 2;
    }
  }

  /** A single date is a streak of 1. */
  lemma RachaUnDia(d: int)
    ensures Racha([d]) == 1
  {
  }
}
