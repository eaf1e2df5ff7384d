/** Model of routers/match.py: the basic yes/no matcher between one client
    request and one property, and the endpoint that runs it over every
    client × property pair of the user's company. */
module Match {

  /** A client request, reduced to the fields the basic matcher reads.
      `entrada` (down payment) and `banos` are integers, as the client
      creation endpoint takes them. */
  datatype Cliente = Cliente(id: int, companiaId: int, zona: string,
                             entrada: int, habitaciones: int, banos: int)

  /** A property listing, reduced to the fields the basic matcher reads. */
  datatype Piso = Piso(id: int, companiaId: int, zona: string,
                       precio: int, habitaciones: int, banos: int)

  /** One entry of the endpoint's answer: `{cliente_id, piso_id}`. */
  datatype MatchPair = MatchPair(clienteId: int, pisoId: int)

  /** The down payment is multiplied by this to give the buying capacity. */
  const CapacityFactor: int := 10000

  function Capacidad(c: Cliente): int
  {
    c.entrada * CapacityFactor
  }

  /** The four checks, in `match_basico`'s order (zone, price, rooms,
      bathrooms), each returning early. */
  function MatchBasico(c: Cliente, p: Piso): (r: bool)
    ensures c.zona != p.zona ==> !r
    ensures p.precio > c.entrada * 10000 ==> !r
    ensures p.habitaciones < c.habitaciones ==> !r
    ensures p.banos < c.banos ==> !r
    ensures (c.zona == p.zona && p.precio <= c.entrada * 10000
             && p.habitaciones >= c.habitaciones && p.banos >= c.banos) ==> r
  {
    if c.zona != p.zona then false
    else if p.precio > Capacidad(c) then false
    else if p.habitaciones < c.habitaciones then false
    else if p.banos < c.banos then false
    else true
  }

  /** A property that is no dearer and no smaller than one that already
      matches a client, in the same zone, matches that client too. */
  lemma MatchBasicoMonotone(c: Cliente, p: Piso, q: Piso)
    requires MatchBasico(c, p)
    requires q.zona == p.zona && q.precio <= p.precio
    requires q.habitaciones >= p.habitaciones && q.banos >= p.banos
    ensures MatchBasico(c, q)
  {
  }

  // ---------------------------------------------------------------------
  // The pair collection, as the nested loops build it.
  // ---------------------------------------------------------------------

  /** The company filter of both queries: the elements of `s` whose
      company, as `companiaOf` reads it, is `companiaId`, in query order. */
  function OfCompania<T>(s: seq<T>, companiaOf: T -> int, companiaId: int): (r: seq<T>)
    ensures |r| <= |s|
  {
    if |s| == 0 then []
    else (if companiaOf(s[0]) == companiaId then [s[0]] else []) + OfCompania(s[1..], companiaOf, companiaId)
  }

  /** The filter keeps exactly the elements of the company. */
  lemma {:induction false} OfCompaniaMembers<T>(s: seq<T>, companiaOf: T -> int, companiaId: int)
    ensures forall x :: x in OfCompania(s, companiaOf, companiaId) <==> x in s && companiaOf(x) == companiaId
  {
    if |s| != 0 {
      OfCompaniaMembers(s[1..], companiaOf, companiaId);
      assert s == [s[0]] + s[1..];
    }
  }

  function CompaniaDeCliente(c: Cliente): int { c.companiaId }

  function CompaniaDePiso(p: Piso): int { p.companiaId }

  /** The client query: `Cliente.compania_id == user.compania_id`. */
  function ClientesDe(cs: seq<Cliente>, companiaId: int): seq<Cliente>
  {
    OfCompania(cs, CompaniaDeCliente, companiaId)
  }

  /** The property query: `Piso.compania_id == user.compania_id`. */
  function PisosDe(ps: seq<Piso>, companiaId: int): seq<Piso>
  {
    OfCompania(ps, CompaniaDePiso, companiaId)
  }

  /** What the inner loop appends for client `c` over the properties `ps`. */
  function RowMatches(c: Cliente, ps: seq<Piso>): (r: seq<MatchPair>)
    ensures |r| <= |ps|
  {
    if ps == [] then []
    else
      var last := ps[|ps| - 1];
      RowMatches(c, ps[..|ps| - 1]) + (if MatchBasico(c, last) then [MatchPair(c.id, last.id)] else [])
  }

  /** What both loops append, client by client. */
  function Matches(cs: seq<Cliente>, ps: seq<Piso>): seq<MatchPair>
  {
    if cs == [] then []
    else Matches(cs[..|cs| - 1], ps) + RowMatches(cs[|cs| - 1], ps)
  }

  /** The answer has at most one entry per client × property pair. */
  lemma {:induction false} MatchesLength(cs: seq<Cliente>, ps: seq<Piso>)
    ensures |Matches(cs, ps)| <= |cs| * |ps|
  {
    if cs != [] {
      MatchesLength(cs[..|cs| - 1], ps);
      assert (|cs| - 1) * |ps| + |ps| == |cs| * |ps|;
    }
  }

  /** The two nested loops of the `/match/` endpoint: every client ×
      property pair that passes the matcher, outer loop over clients, inner
      loop over properties. */
  method CollectMatches(clientes: seq<Cliente>, pisos: seq<Piso>) returns (resultados: seq<MatchPair>)
    ensures resultados == Matches(clientes, pisos)
  {
    resultados := [];
    var i := 0;
    while i < |clientes|
      invariant 0 <= i <= |clientes|
      invariant resultados == Matches(clientes[..i], pisos)
    {
      var cliente := clientes[i];
      ghost var before := resultados;
      var j := 0;
      while j < |pisos|
        invariant 0 <= j <= |pisos|
        invariant resultados == before + RowMatches(cliente, pisos[..j])
      {
        var piso := pisos[j];
        assert pisos[..j + 1][..j] == pisos[..j];
        if MatchBasico(cliente, piso) {
          resultados := resultados + [MatchPair(cliente.id, piso.id)];
        }
        j := j + 1;
      }
      assert pisos[..j] == pisos;
      assert clientes[..i + 1][..i] == clientes[..i];
      i := i + 1;
    }
    assert clientes[..i] == clientes;
  }

  /** The `/match/` endpoint: the user's company's clients and properties
      (the two queries), then the nested loops over them. */
  method ObtenerMatches(todosClientes: seq<Cliente>, todosPisos: seq<Piso>, companiaId: int)
    returns (resultados: seq<MatchPair>)
    ensures resultados == Matches(ClientesDe(todosClientes, companiaId), PisosDe(todosPisos, companiaId))
  {
    var clientes := ClientesDe(todosClientes, companiaId);
    var pisos := PisosDe(todosPisos, companiaId);
    resultados := CollectMatches(clientes, pisos);
  }

  // ---------------------------------------------------------------------
  // Where each answer comes from: the (client index, property index) cells.
  // ---------------------------------------------------------------------

  /** Position of a pair in the cartesian product: client index, property index. */
  datatype Cell = Cell(i: nat, j: nat)

  /** Client-major order of the loops. */
  predicate LexBefore(a: Cell, b: Cell)
  {
    a.i < b.i || (a.i == b.i && a.j < b.j)
  }

  /** The cells the inner loop appends for client number `i`. */
  function RowCells(i: nat, c: Cliente, ps: seq<Piso>): seq<Cell>
  {
    if ps == [] then []
    else RowCells(i, c, ps[..|ps| - 1]) + (if MatchBasico(c, ps[|ps| - 1]) then [Cell(i, |ps| - 1)] else [])
  }

  /** The cells both loops append. */
  function MatchCells(cs: seq<Cliente>, ps: seq<Piso>): seq<Cell>
  {
    if cs == [] then []
    else MatchCells(cs[..|cs| - 1], ps) + RowCells(|cs| - 1, cs[|cs| - 1], ps)
  }

  /** Each cell of a row names a passing property, and the row's answers are
      those cells' ids. */
  lemma {:induction false} RowCellsSound(i: nat, c: Cliente, ps: seq<Piso>)
    ensures |RowMatches(c, ps)| == |RowCells(i, c, ps)|
    ensures forall k :: 0 <= k < |RowCells(i, c, ps)| ==>
              var cell := RowCells(i, c, ps)[k];
              cell.i == i && cell.j < |ps| && MatchBasico(c, ps[cell.j])
              && RowMatches(c, ps)[k] == MatchPair(c.id, ps[cell.j].id)
  {
    if ps != [] {
      var front := ps[..|ps| - 1];
      RowCellsSound(i, c, front);
      var rc := RowCells(i, c, ps);
      var rcf := RowCells(i, c, front);
      forall k | 0 <= k < |rcf|
        ensures rc[k] == rcf[k] && RowMatches(c, ps)[k] == RowMatches(c, front)[k]
        ensures front[rcf[k].j] == ps[rcf[k].j]
      {
      }
    }
  }

  /** A row's cells are in increasing property order. */
  lemma {:induction false} RowCellsSorted(i: nat, c: Cliente, ps: seq<Piso>)
    ensures forall k, l :: 0 <= k < l < |RowCells(i, c, ps)| ==> RowCells(i, c, ps)[k].j < RowCells(i, c, ps)[l].j
  {
    if ps != [] {
      var front := ps[..|ps| - 1];
      RowCellsSorted(i, c, front);
      RowCellsSound(i, c, front);
    }
  }

  /** Every passing property of a row has its cell. */
  lemma {:induction false} RowCellsComplete(i: nat, c: Cliente, ps: seq<Piso>, j: nat)
    requires j < |ps| && MatchBasico(c, ps[j])
    ensures Cell(i, j) in RowCells(i, c, ps)
  {
    var front := ps[..|ps| - 1];
    if j < |ps| - 1 {
      assert front[j] == ps[j];
      RowCellsComplete(i, c, front, j);
    }
  }

  /** Each cell names a passing pair, and the answers are those cells' ids. */
  lemma {:induction false} MatchCellsSound(cs: seq<Cliente>, ps: seq<Piso>)
    ensures |Matches(cs, ps)| == |MatchCells(cs, ps)|
    ensures forall k :: 0 <= k < |MatchCells(cs, ps)| ==>
              var cell := MatchCells(cs, ps)[k];
              cell.i < |cs| && cell.j < |ps| && MatchBasico(cs[cell.i], ps[cell.j])
              && Matches(cs, ps)[k] == MatchPair(cs[cell.i].id, ps[cell.j].id)
  {
    if cs != [] {
      var n := |cs| - 1;
      var front := cs[..n];
      MatchCellsSound(front, ps);
      RowCellsSound(n, cs[n], ps);
      var mf := MatchCells(front, ps);
      var rc := RowCells(n, cs[n], ps);
      assert MatchCells(cs, ps) == mf + rc;
      assert Matches(cs, ps) == Matches(front, ps) + RowMatches(cs[n], ps);
      forall k | 0 <= k < |mf|
        ensures cs[mf[k].i] == front[mf[k].i]
      {
      }
    }
  }

  /** The cells come in client-major order. */
  lemma {:induction false} MatchCellsSorted(cs: seq<Cliente>, ps: seq<Piso>)
    ensures forall k, l :: 0 <= k < l < |MatchCells(cs, ps)| ==> LexBefore(MatchCells(cs, ps)[k], MatchCells(cs, ps)[l])
  {
    if cs != [] {
      var n := |cs| - 1;
      var front := cs[..n];
      MatchCellsSorted(front, ps);
      MatchCellsSound(front, ps);
      RowCellsSound(n, cs[n], ps);
      RowCellsSorted(n, cs[n], ps);
      var mf := MatchCells(front, ps);
      var rc := RowCells(n, cs[n], ps);
      var mc := MatchCells(cs, ps);
      assert mc == mf + rc;
      forall k, l | 0 <= k < l < |mc|
        ensures LexBefore(mc[k], mc[l])
      {
        if l < |mf| {
          assert LexBefore(mf[k], mf[l]);
        } else if k < |mf| {
          assert mc[k].i < n && mc[l].i == n;
        } else {
          assert rc[k - |mf|].j < rc[l - |mf|].j;
        }
      }
    }
  }

  /** Every passing pair has its cell. */
  lemma {:induction false} MatchCellsComplete(cs: seq<Cliente>, ps: seq<Piso>, i: nat, j: nat)
    requires i < |cs| && j < |ps| && MatchBasico(cs[i], ps[j])
    ensures Cell(i, j) in MatchCells(cs, ps)
  {
    var n := |cs| - 1;
    var front := cs[..n];
    var mf := MatchCells(front, ps);
    var rc := RowCells(n, cs[n], ps);
    assert MatchCells(cs, ps) == mf + rc;
    if i < n {
      assert front[i] == cs[i];
      MatchCellsComplete(front, ps, i, j);
      assert Cell(i, j) in mf;
    } else {
      RowCellsComplete(n, cs[n], ps, j);
      assert Cell(i, j) in rc;
    }
  }

  /** Soundness: every answer names a client and a property of the company
      that pass the matcher. */
  lemma ObtenerMatchesSound(cs: seq<Cliente>, ps: seq<Piso>, companiaId: int, m: MatchPair)
    requires m in Matches(ClientesDe(cs, companiaId), PisosDe(ps, companiaId))
    ensures exists c, p :: c in cs && p in ps && c.companiaId == companiaId && p.companiaId == companiaId
                           && MatchBasico(c, p) && m == MatchPair(c.id, p.id)
  {
    var cc := ClientesDe(cs, companiaId);
    var pp := PisosDe(ps, companiaId);
    var ms := Matches(cc, pp);
    var k :| 0 <= k < |ms| && ms[k] == m;
    MatchCellsSound(cc, pp);
    var cell := MatchCells(cc, pp)[k];
    var c, p := cc[cell.i], pp[cell.j];
    assert MatchBasico(c, p) && m == MatchPair(c.id, p.id);
    assert c in cs && c.companiaId == companiaId by {
      OfCompaniaMembers(cs, CompaniaDeCliente, companiaId);
    }
    assert p in ps && p.companiaId == companiaId by {
      OfCompaniaMembers(ps, CompaniaDePiso, companiaId);
    }
  }

  /** Completeness: every client × property pair of the company that passes
      the matcher is in the answer. */
  lemma ObtenerMatchesComplete(cs: seq<Cliente>, ps: seq<Piso>, companiaId: int, c: Cliente, p: Piso)
    requires c in cs && p in ps && c.companiaId == companiaId && p.companiaId == companiaId
    requires MatchBasico(c, p)
    ensures MatchPair(c.id, p.id) in Matches(ClientesDe(cs, companiaId), PisosDe(ps, companiaId))
  {
    var cc := ClientesDe(cs, companiaId);
    var pp := PisosDe(ps, companiaId);
    OfCompaniaMembers(cs, CompaniaDeCliente, companiaId);
    OfCompaniaMembers(ps, CompaniaDePiso, companiaId);
    MatchCellsSound(cc, pp);
    var i :| 0 <= i < |cc| && cc[i] == c;
    var j :| 0 <= j < |pp| && pp[j] == p;
    MatchCellsComplete(cc, pp, i, j);
    var mc := MatchCells(cc, pp);
    var k :| 0 <= k < |mc| && mc[k] == Cell(i, j);
    assert Matches(cc, pp)[k] == MatchPair(c.id, p.id);
  }

  /** Order: the answer lists the passing pairs client-major, each position
      coming from a strictly later (client, property) cell than the one
      before it, and there are at most |clientes|·|pisos| of them. */
  lemma ObtenerMatchesOrdered(cs: seq<Cliente>, ps: seq<Piso>)
    ensures |Matches(cs, ps)| <= |cs| * |ps|
    ensures exists cells: seq<Cell> ::
              |cells| == |Matches(cs, ps)|
              && (forall k :: 0 <= k < |cells| ==>
                    cells[k].i < |cs| && cells[k].j < |ps|
                    && Matches(cs, ps)[k] == MatchPair(cs[cells[k].i].id, ps[cells[k].j].id))
              && (forall k, l :: 0 <= k < l < |cells| ==> LexBefore(cells[k], cells[l]))
  {
    MatchesLength(cs, ps);
    MatchCellsSound(cs, ps);
    MatchCellsSorted(cs, ps);
    var cells := MatchCells(cs, ps);
    assert forall k :: 0 <= k < |cells| ==>
             cells[k].i < |cs| && cells[k].j < |ps|
             && Matches(cs, ps)[k] == MatchPair(cs[cells[k].i].id, ps[cells[k].j].id);
  }

  // ---------------------------------------------------------------------
  // Bathrooms as the tables store them.
  // ---------------------------------------------------------------------

  /** Python's `<` on two strings: lexicographic by code point. */
  function PyStrLess(a: string, b: string): bool
  {
    if a == [] then b != []
    else if b == [] then false
    else if a[0] != b[0] then a[0] < b[0]
    else PyStrLess(a[1..], b[1..])
  }

  /** The bathroom check as executed when both counts come back from the
      String column: a lexicographic comparison. */
  function BanosOkAsStored(pisoBanos: string, clienteBanos: string): bool
  {
    !PyStrLess(pisoBanos, clienteBanos)
  }

  /** A property with ten bathrooms fails a request for two when the counts
      are compared as text, while the integer check accepts it. */
  lemma BanosAsStoredRejectsTenForTwo()
    ensures !BanosOkAsStored("10", "2")
    ensures var c := Cliente(1, 1, "ALTO", 30, 1, 2);
            var p := Piso(1, 1, "ALTO", 200000, 1, 10);
            MatchBasico(c, p)
  {
  }
}
