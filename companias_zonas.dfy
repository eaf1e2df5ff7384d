/** Model of routers/companias_zonas.py: each company's list of named zones,
    kept in one table of rows `(id, compania_id, zona)`, with the endpoints
    that read it, replace one company's zones and delete one zone. */
module CompaniasZonas {
  import PyText

  /** One row of the zone table; also the shape of `ZonaResponse`. */
  datatype ZonaRow = ZonaRow(id: int, companiaId: int, zona: string)

  /** The HTTP errors the endpoints raise. `ServerError` is the 500 that
      wraps whatever was raised inside the create endpoint's `try`. */
  datatype ApiError = Forbidden | NotFound | ServerError(cause: ApiError)

  datatype Option<T> = None | Some(value: T)

  datatype Result<T> = Ok(value: T) | Err(error: ApiError)

  /** Request body of the create endpoint. */
  datatype ZonaCreate = ZonaCreate(companiaId: int, zonas: seq<string>)

  /** Answer of the create endpoint. */
  datatype CreateResponse = CreateResponse(message: string, companiaId: int, companiaNombre: string,
                                           zonasCreadas: seq<string>, totalZonas: int)

  /** The zones served to a company that has none configured. */
  const DefaultZonaNames: seq<string> :=
    ["ALTO", "OLIVOS", "LAGUNA", "BAT\U{C1}N", "SEP\U{DA}LVEDA", "MANZANARES", "P\U{CD}O", "PUERTA", "JESUITAS"]

  // ---------------------------------------------------------------------
  // The table as a value.
  // ---------------------------------------------------------------------

  /** Row ids are the table's primary key, handed out by the database in
      increasing order: along the table they strictly increase, all within
      `[lo, hi)`. */
  predicate Keyed(rows: seq<ZonaRow>, lo: int, hi: int)
    decreases |rows|
  {
    rows == [] || (lo <= rows[0].id < hi && Keyed(rows[1..], rows[0].id + 1, hi))
  }

  /** The query `CompaniaZona.compania_id == c`, in table order. */
  function ZonasOf(rows: seq<ZonaRow>, c: int): (r: seq<ZonaRow>)
    ensures |r| <= |rows|
  {
    if rows == [] then []
    else (if rows[0].companiaId == c then [rows[0]] else []) + ZonasOf(rows[1..], c)
  }

  /** The table after the bulk delete `CompaniaZona.compania_id == c`. */
  function WithoutCompania(rows: seq<ZonaRow>, c: int): (r: seq<ZonaRow>)
    ensures |r| <= |rows|
  {
    if rows == [] then []
    else (if rows[0].companiaId != c then [rows[0]] else []) + WithoutCompania(rows[1..], c)
  }

  /** The rows the create loop adds: one per input name, normalised, with
      consecutive ids from `start`. */
  function NewRows(c: int, zonas: seq<string>, start: int): (r: seq<ZonaRow>)
  {
    seq(|zonas|, k requires 0 <= k < |zonas| => ZonaRow(start + k, c, PyText.Normalize(zonas[k])))
  }

  /** One more name gives one more row at the end. */
  lemma NewRowsSnoc(c: int, zonas: seq<string>, start: int, i: nat)
    requires i < |zonas|
    ensures NewRows(c, zonas[..i + 1], start)
            == NewRows(c, zonas[..i], start) + [ZonaRow(start + i, c, PyText.Normalize(zonas[i]))]
  {
  }

  /** The table after a successful create for company `c`. */
  function ReplaceZonas(rows: seq<ZonaRow>, c: int, zonas: seq<string>, start: int): seq<ZonaRow>
  {
    WithoutCompania(rows, c) + NewRows(c, zonas, start)
  }

  /** The defaults as the fallback endpoint returns them. */
  function DefaultZonas(c: int): (r: seq<ZonaRow>)
  {
    seq(|DefaultZonaNames|, k requires 0 <= k < |DefaultZonaNames| => ZonaRow(0, c, DefaultZonaNames[k]))
  }

  /** The first row matching both the zone id and the company, as
      `.first()` finds it, searching from position `from`. */
  function FindZona(rows: seq<ZonaRow>, zonaId: int, c: int, from: nat): (r: Option<nat>)
    requires from <= |rows|
    ensures r.None? ==> forall k :: from <= k < |rows| ==> !(rows[k].id == zonaId && rows[k].companiaId == c)
    ensures r.Some? ==> from <= r.value < |rows| && rows[r.value].id == zonaId && rows[r.value].companiaId == c
                        && forall k :: from <= k < r.value ==> !(rows[k].id == zonaId && rows[k].companiaId == c)
    decreases |rows| - from
  {
    if from == |rows| then None
    else if rows[from].id == zonaId && rows[from].companiaId == c then Some(from)
    else FindZona(rows, zonaId, c, from + 1)
  }

  // ---------------------------------------------------------------------
  // Lemmas about the table as a value.
  // ---------------------------------------------------------------------

  /** The company query returns exactly the company's rows. */
  lemma {:induction false} ZonasOfMembers(rows: seq<ZonaRow>, c: int)
    ensures forall z :: z in ZonasOf(rows, c) <==> z in rows && z.companiaId == c
  {
    if rows != [] {
      ZonasOfMembers(rows[1..], c);
      assert rows == [rows[0]] + rows[1..];
    }
  }

  /** The bulk delete removes exactly the company's rows. */
  lemma {:induction false} WithoutCompaniaMembers(rows: seq<ZonaRow>, c: int)
    ensures forall z :: z in WithoutCompania(rows, c) <==> z in rows && z.companiaId != c
  {
    if rows != [] {
      WithoutCompaniaMembers(rows[1..], c);
      assert rows == [rows[0]] + rows[1..];
    }
  }

  lemma {:induction false} ZonasOfAppend(a: seq<ZonaRow>, b: seq<ZonaRow>, c: int)
    ensures ZonasOf(a + b, c) == ZonasOf(a, c) + ZonasOf(b, c)
  {
    if a != [] {
      assert (a + b)[0] == a[0];
      assert (a + b)[1..] == a[1..] + b;
      ZonasOfAppend(a[1..], b, c);
    } else {
      assert a + b == b;
    }
  }

  /** The bulk delete for `c` leaves every other company's zones as they
      were, in the same order. */
  lemma {:induction false} ZonasOfWithout(rows: seq<ZonaRow>, c: int, d: int)
    ensures ZonasOf(WithoutCompania(rows, c), d) == if d == c then [] else ZonasOf(rows, d)
  {
    if rows != [] {
      ZonasOfWithout(rows[1..], c, d);
      var head := if rows[0].companiaId != c then [rows[0]] else [];
      ZonasOfAppend(head, WithoutCompania(rows[1..], c), d);
    }
  }

  lemma {:induction false} ZonasOfNewRows(c: int, zonas: seq<string>, start: int, d: int)
    ensures ZonasOf(NewRows(c, zonas, start), d) == if d == c then NewRows(c, zonas, start) else []
  {
    if zonas != [] {
      var n := NewRows(c, zonas, start);
      assert n == [n[0]] + NewRows(c, zonas[1..], start + 1);
      ZonasOfNewRows(c, zonas[1..], start + 1, d);
    }
  }

  /** After a create for `c`, `c`'s zones are exactly the input names,
      each with `strip().upper()` applied, in input order, duplicates kept. */
  lemma ReplaceZonasOwn(rows: seq<ZonaRow>, c: int, zonas: seq<string>, start: int)
    ensures |ZonasOf(ReplaceZonas(rows, c, zonas, start), c)| == |zonas|
    ensures forall k :: 0 <= k < |zonas| ==>
              ZonasOf(ReplaceZonas(rows, c, zonas, start), c)[k].companiaId == c
              && ZonasOf(ReplaceZonas(rows, c, zonas, start), c)[k].zona == PyText.Normalize(zonas[k])
  {
    ZonasOfAppend(WithoutCompania(rows, c), NewRows(c, zonas, start), c);
    ZonasOfWithout(rows, c, c);
    ZonasOfNewRows(c, zonas, start, c);
    assert ZonasOf(ReplaceZonas(rows, c, zonas, start), c) == [] + NewRows(c, zonas, start);
    assert [] + NewRows(c, zonas, start) == NewRows(c, zonas, start);
  }

  /** A create for `c` changes no other company's zones. */
  lemma ReplaceZonasOthers(rows: seq<ZonaRow>, c: int, zonas: seq<string>, start: int, d: int)
    requires d != c
    ensures ZonasOf(ReplaceZonas(rows, c, zonas, start), d) == ZonasOf(rows, d)
  {
    ZonasOfAppend(WithoutCompania(rows, c), NewRows(c, zonas, start), d);
    ZonasOfWithout(rows, c, d);
    ZonasOfNewRows(c, zonas, start, d);
  }

  /** A keyed table has every id in range and no id twice: ids increase
      along the table. */
  lemma {:induction false} KeyedIdsIncrease(rows: seq<ZonaRow>, lo: int, hi: int)
    requires Keyed(rows, lo, hi)
    ensures forall k :: 0 <= k < |rows| ==> lo <= rows[k].id < hi
    ensures forall k, l :: 0 <= k < l < |rows| ==> rows[k].id < rows[l].id
  {
    if rows != [] {
      var tail := rows[1..];
      KeyedIdsIncrease(tail, rows[0].id + 1, hi);
      forall k | 1 <= k < |rows| ensures rows[k] == tail[k - 1] {
      }
    }
  }

  lemma {:induction false} KeyedWiden(rows: seq<ZonaRow>, lo: int, hi: int, lo': int, hi': int)
    requires Keyed(rows, lo, hi) && lo' <= lo && hi <= hi'
    ensures Keyed(rows, lo', hi')
  {
    if rows != [] {
      KeyedWiden(rows[1..], rows[0].id + 1, hi, rows[0].id + 1, hi');
    }
  }

  lemma {:induction false} KeyedAppend(a: seq<ZonaRow>, b: seq<ZonaRow>, lo: int, mid: int, hi: int)
    requires lo <= mid <= hi && Keyed(a, lo, mid) && Keyed(b, mid, hi)
    ensures Keyed(a + b, lo, hi)
  {
    if a == [] {
      assert a + b == b;
      KeyedWiden(b, mid, hi, lo, hi);
    } else {
      assert (a + b)[0] == a[0];
      assert (a + b)[1..] == a[1..] + b;
      KeyedAppend(a[1..], b, a[0].id + 1, mid, hi);
    }
  }

  lemma {:induction false} WithoutCompaniaKeyed(rows: seq<ZonaRow>, c: int, lo: int, hi: int)
    requires Keyed(rows, lo, hi)
    ensures Keyed(WithoutCompania(rows, c), lo, hi)
  {
    if rows != [] {
      var rest := WithoutCompania(rows[1..], c);
      WithoutCompaniaKeyed(rows[1..], c, rows[0].id + 1, hi);
      if rows[0].companiaId != c {
        var r := [rows[0]] + rest;
        assert r[0] == rows[0] && r[1..] == rest;
      } else {
        assert WithoutCompania(rows, c) == rest;
        KeyedWiden(rest, rows[0].id + 1, hi, lo, hi);
      }
    }
  }

  lemma {:induction false} NewRowsKeyed(c: int, zonas: seq<string>, start: int)
    ensures Keyed(NewRows(c, zonas, start), start, start + |zonas|)
  {
    if zonas != [] {
      var n := NewRows(c, zonas, start);
      assert n[1..] == NewRows(c, zonas[1..], start + 1);
      NewRowsKeyed(c, zonas[1..], start + 1);
    }
  }

  /** A create keeps ids unique and increasing, with the id counter moved
      past the new rows. */
  lemma ReplaceZonasKeyed(rows: seq<ZonaRow>, c: int, zonas: seq<string>, start: int)
    requires 1 <= start && Keyed(rows, 1, start)
    ensures Keyed(ReplaceZonas(rows, c, zonas, start), 1, start + |zonas|)
  {
    WithoutCompaniaKeyed(rows, c, 1, start);
    NewRowsKeyed(c, zonas, start);
    KeyedAppend(WithoutCompania(rows, c), NewRows(c, zonas, start), 1, start, start + |zonas|);
  }

  /** Removing one row keeps ids unique and increasing. */
  lemma {:induction false} DeleteKeepsKeyed(rows: seq<ZonaRow>, lo: int, hi: int, k: nat)
    requires Keyed(rows, lo, hi) && k < |rows|
    ensures Keyed(rows[..k] + rows[k + 1..], lo, hi)
  {
    var tail := rows[1..];
    if k == 0 {
      assert rows[..k] + rows[k + 1..] == tail;
      KeyedWiden(tail, rows[0].id + 1, hi, lo, hi);
    } else {
      DeleteKeepsKeyed(tail, rows[0].id + 1, hi, k - 1);
      var r := rows[..k] + rows[k + 1..];
      assert r[0] == rows[0];
      assert r[1..] == tail[..k - 1] + tail[k..];
    }
  }

  /** Removing one row keeps the other rows, and no other: every row with
      a different id stays, the removed one goes. */
  lemma DeleteRemovesOne(rows: seq<ZonaRow>, lo: int, hi: int, k: nat)
    requires Keyed(rows, lo, hi) && k < |rows|
    ensures forall z :: z in rows[..k] + rows[k + 1..] <==> z in rows && z.id != rows[k].id
  {
    var rest := rows[..k] + rows[k + 1..];
    assert forall m :: 0 <= m < |rest| ==> rest[m] == rows[if m < k then m else m + 1];
    forall z | z in rest ensures z in rows && z.id != rows[k].id {
      var m :| 0 <= m < |rest| && rest[m] == z;
      var n := if m < k then m else m + 1;
      assert rows[n] == z && n != k;
      assert rows[n].id != rows[k].id by {
        KeyedIdsIncrease(rows, lo, hi);
      }
    }
    forall z | z in rows && z.id != rows[k].id ensures z in rest {
      var n :| 0 <= n < |rows| && rows[n] == z;
      var m := if n < k then n else n - 1;
      assert rest[m] == z;
    }
  }

  // ---------------------------------------------------------------------
  // The table as the endpoints change it.
  // ---------------------------------------------------------------------

  class ZonaTable {
    /** The companies table: id to `nombre`. */
    var companias: map<int, string>
    /** The `companias_zonas` table, in insertion order. */
    var rows: seq<ZonaRow>
    /** The next id the database will hand out. */
    var nextId: int

    ghost predicate Valid()
      reads this
    {
      1 <= nextId && Keyed(rows, 1, nextId)
    }

    constructor (companias: map<int, string>)
      ensures Valid() && this.companias == companias && rows == [] && nextId == 1
    {
      this.companias := companias;
      rows := [];
      nextId := 1;
    }

    /** `GET /companias/zonas/{compania_id}`: refused unless the user
        belongs to the company; otherwise exactly that company's rows. */
    method GetZonasByCompania(userCompaniaId: int, companiaId: int) returns (r: Result<seq<ZonaRow>>)
      ensures r.Err? <==> userCompaniaId != companiaId
      ensures r.Err? ==> r.error == Forbidden
      ensures r.Ok? ==> r.value == ZonasOf(rows, companiaId)
                        && forall z :: z in r.value <==> z in rows && z.companiaId == companiaId
    {
      if userCompaniaId != companiaId {
        return Err(Forbidden);
      }
      ZonasOfMembers(rows, companiaId);
      r := Ok(ZonasOf(rows, companiaId));
    }

    /** `GET /companias/zonas/`: the user's company's rows, or, when it has
        none, the nine defaults, each with id 0 and the user's company. */
    method GetZonasCurrentCompania(userCompaniaId: int) returns (r: seq<ZonaRow>)
      ensures r != []
      ensures ZonasOf(rows, userCompaniaId) != [] ==> r == ZonasOf(rows, userCompaniaId)
      ensures ZonasOf(rows, userCompaniaId) == [] ==>
                |r| == 9 && forall k :: 0 <= k < 9 ==> r[k] == ZonaRow(0, userCompaniaId, DefaultZonaNames[k])
    {
      var zonas := ZonasOf(rows, userCompaniaId);
      if zonas == [] {
        return DefaultZonas(userCompaniaId);
      }
      r := zonas;
    }

    /** `POST /companias/zonas/`: for a known company, delete all its rows
        and add one row per input name, normalised; for an unknown company,
        the 404 raised inside the `try` comes back as a 500 and the table is
        rolled back to what it was. */
    method CreateZonasForCompania(data: ZonaCreate) returns (r: Result<CreateResponse>)
      requires Valid()
      modifies this
      ensures Valid() && companias == old(companias)
      ensures r.Err? <==> data.companiaId !in old(companias)
      ensures r.Err? ==> r.error == ServerError(NotFound) && rows == old(rows) && nextId == old(nextId)
      ensures r.Ok? ==> rows == ReplaceZonas(old(rows), data.companiaId, data.zonas, old(nextId))
                        && nextId == old(nextId) + |data.zonas|
      ensures r.Ok? ==> r.value.message == "Zonas actualizadas exitosamente para compa\U{F1}\U{ED}a "
                                           + companias[data.companiaId]
                        && r.value.companiaId == data.companiaId
                        && r.value.companiaNombre == companias[data.companiaId]
                        && r.value.zonasCreadas == data.zonas
                        && r.value.totalZonas == |data.zonas|
    {
      var c := data.companiaId;
      if c !in companias {
        return Err(ServerError(NotFound));
      }
      var nombre := companias[c];
      ReplaceZonasKeyed(rows, c, data.zonas, nextId);
      ghost var start := nextId;
      var kept := WithoutCompania(rows, c);
      rows := kept;
      var zonasCreadas: seq<string> := [];
      var i := 0;
      while i < |data.zonas|
        invariant 0 <= i <= |data.zonas|
        invariant companias == old(companias)
        invariant nextId == start + i
        invariant rows == kept + NewRows(c, data.zonas[..i], start)
        invariant zonasCreadas == data.zonas[..i]
      {
        var zonaNombre := data.zonas[i];
        NewRowsSnoc(c, data.zonas, start, i);
        rows := rows + [ZonaRow(nextId, c, PyText.Normalize(zonaNombre))];
        nextId := nextId + 1;
        zonasCreadas := zonasCreadas + [zonaNombre];
        i := i + 1;
      }
      assert data.zonas[..i] == data.zonas;
      assert rows == ReplaceZonas(old(rows), c, data.zonas, start);
      r := Ok(CreateResponse("Zonas actualizadas exitosamente para compa\U{F1}\U{ED}a " + nombre,
                             c, nombre, zonasCreadas, |zonasCreadas|));
    }

    /** `DELETE /companias/zonas/{compania_id}/{zona_id}`: remove the row
        with that id and company, or fail with 404 and change nothing. */
    method DeleteZona(companiaId: int, zonaId: int) returns (r: Result<string>)
      requires Valid()
      modifies this
      ensures Valid() && companias == old(companias) && nextId == old(nextId)
      ensures r.Err? <==> forall k :: 0 <= k < |old(rows)| ==>
                            !(old(rows)[k].id == zonaId && old(rows)[k].companiaId == companiaId)
      ensures r.Err? ==> r.error == NotFound && rows == old(rows)
      ensures r.Ok? ==> exists k :: 0 <= k < |old(rows)| && old(rows)[k].id == zonaId
                          && old(rows)[k].companiaId == companiaId
                          && rows == old(rows)[..k] + old(rows)[k + 1..]
                          && r.value == "Zona '" + old(rows)[k].zona + "' eliminada exitosamente"
      ensures forall z :: z in rows <==> z in old(rows) && !(z.id == zonaId && z.companiaId == companiaId)
    {
      var found := FindZona(rows, zonaId, companiaId, 0);
      if found.None? {
        return Err(NotFound);
      }
      var k := found.value;
      var zona := rows[k];
      DeleteKeepsKeyed(rows, 1, nextId, k);
      DeleteRemovesOne(rows, 1, nextId, k);
      rows := rows[..k] + rows[k + 1..];
      r := Ok("Zona '" + zona.zona + "' eliminada exitosamente");
    }
  }
}
